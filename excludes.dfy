/**
 * Per-project excludes: a list of path prefixes whose files are left out of
 * processing, kept in a plain-text file (one path per line) named after the
 * project inside the settings directory.
 */
module ExcludesModel {

  /** The setting whose change switches the active project. */
  const DefaultDirectoryKey: string := "default directory"

  /** `path` with every trailing '/' removed. */
  function StripTrailingSlashes(path: string): (r: string)
    ensures r <= path
    ensures r == [] || r[|r| - 1] != '/'
    ensures forall i :: |r| <= i < |path| ==> path[i] == '/'
    decreases |path|
  {
    if |path| > 0 && path[|path| - 1] == '/' then StripTrailingSlashes(path[..|path| - 1]) else path
  }

  /** A stored entry never ends in '/'. */
  predicate Normalized(entry: string)
  {
    entry == [] || entry[|entry| - 1] != '/'
  }

  predicate NoDuplicates(s: seq<string>)
  {
    forall i, j :: 0 <= i < j < |s| ==> s[i] != s[j]
  }

  /** `path` is the excluded entry itself or lies under it (prefix by whole path segments). */
  predicate Covers(entry: string, path: string)
  {
    path == entry || entry + "/" <= path
  }

  predicate Excluded(entries: seq<string>, path: string)
  {
    exists i :: 0 <= i < |entries| && Covers(entries[i], path)
  }

  /** One path of `update_excludes`: normalised, and appended unless already stored. */
  function AddExclude(stored: seq<string>, path: string): seq<string>
  {
    var entry := StripTrailingSlashes(path);
    if entry in stored then stored else stored + [entry]
  }

  /** `update_excludes(paths)` on the stored list, one path after another. */
  function AddExcludes(stored: seq<string>, paths: seq<string>): seq<string>
    decreases |paths|
  {
    if paths == [] then stored else AddExcludes(AddExclude(stored, paths[0]), paths[1..])
  }

  /** Stripping is idempotent: a stored entry normalises to itself. */
  lemma StripIdempotent(path: string)
    ensures StripTrailingSlashes(StripTrailingSlashes(path)) == StripTrailingSlashes(path)
  {
  }

  /** A path is covered by its own normalised form. */
  lemma {:induction false} CoveredByOwnEntry(path: string)
    ensures Covers(StripTrailingSlashes(path), path)
  {
    var e := StripTrailingSlashes(path);
    if e != path {
      assert |e| < |path| && path[|e|] == '/';
      assert path[..|e| + 1] == e + "/";
    }
  }

  /**
   * `update_excludes` keeps what was stored, in order, appends only
   * normalised entries, and stores no entry twice.
   */
  lemma {:induction false} AddExcludesShape(stored: seq<string>, paths: seq<string>)
    ensures stored <= AddExcludes(stored, paths)
    ensures forall i :: |stored| <= i < |AddExcludes(stored, paths)| ==>
      exists j :: 0 <= j < |paths| && AddExcludes(stored, paths)[i] == StripTrailingSlashes(paths[j])
    ensures NoDuplicates(stored) ==> NoDuplicates(AddExcludes(stored, paths))
    ensures (forall i :: 0 <= i < |stored| ==> Normalized(stored[i])) ==>
      forall i :: 0 <= i < |AddExcludes(stored, paths)| ==> Normalized(AddExcludes(stored, paths)[i])
    decreases |paths|
  {
    if paths != [] {
      var next := AddExclude(stored, paths[0]);
      AddExcludesShape(next, paths[1..]);
      var r := AddExcludes(stored, paths);
      forall i | |stored| <= i < |r|
        ensures exists j :: 0 <= j < |paths| && r[i] == StripTrailingSlashes(paths[j])
      {
        if i < |next| {
          assert r[i] == StripTrailingSlashes(paths[0]);
        } else {
          var j :| 0 <= j < |paths[1..]| && r[i] == StripTrailingSlashes(paths[1..][j]);
          assert r[i] == StripTrailingSlashes(paths[j + 1]);
        }
      }
    }
  }

  /** After `update_excludes(paths)` every given path is stored in normalised form. */
  lemma {:induction false} AddExcludesStoresAll(stored: seq<string>, paths: seq<string>)
    ensures forall p :: p in paths ==> StripTrailingSlashes(p) in AddExcludes(stored, paths)
    decreases |paths|
  {
    if paths != [] {
      var next := AddExclude(stored, paths[0]);
      AddExcludesStoresAll(next, paths[1..]);
      AddExcludesShape(next, paths[1..]);
      assert StripTrailingSlashes(paths[0]) in next;
    }
  }

  /** After excluding `p`, `p` itself and everything under it is excluded. */
  lemma ExcludedAfterUpdate(stored: seq<string>, paths: seq<string>, p: string, q: string)
    requires p in paths
    requires q == p || Covers(StripTrailingSlashes(p), q)
    ensures Excluded(AddExcludes(stored, paths), q)
  {
    AddExcludesStoresAll(stored, paths);
    CoveredByOwnEntry(p);
    var r := AddExcludes(stored, paths);
    var i :| 0 <= i < |r| && r[i] == StripTrailingSlashes(p);
    assert Covers(r[i], q);
  }

  /** The last path segment, as `os.path.basename`. */
  function Basename(path: string): (r: string)
    ensures '/' !in r
    decreases |path|
  {
    if path == [] || path[|path| - 1] == '/' then []
    else Basename(path[..|path| - 1]) + [path[|path| - 1]]
  }

  /** The basename is the longest suffix of the path that holds no separator. */
  lemma {:induction false} BasenameIsLastSegment(path: string)
    ensures var r := Basename(path);
      && |r| <= |path| && path[|path| - |r|..] == r
      && (|r| < |path| ==> path[|path| - |r| - 1] == '/')
    decreases |path|
  {
    if path != [] && path[|path| - 1] != '/' {
      var init := path[..|path| - 1];
      BasenameIsLastSegment(init);
      var r0 := Basename(init);
      assert path[|path| - |r0| - 1..] == init[|init| - |r0|..] + [path[|path| - 1]];
    }
  }

  /** `os.path.join(dir, name)` for a name without a separator. */
  function Join(dir: string, name: string): string
  {
    if dir == [] || dir[|dir| - 1] == '/' then dir + name else dir + "/" + name
  }

  /** The basename of a path built by joining a directory and a name is that name. */
  lemma {:induction false} BasenameOfJoin(dir: string, name: string)
    requires '/' !in name
    ensures Basename(Join(dir, name)) == name
    decreases |name|
  {
    var prefix := if dir == [] || dir[|dir| - 1] == '/' then dir else dir + "/";
    assert Join(dir, name) == prefix + name;
    BasenameAfterSeparator(prefix, name);
  }

  lemma {:induction false} BasenameAfterSeparator(prefix: string, name: string)
    requires prefix == [] || prefix[|prefix| - 1] == '/'
    requires '/' !in name
    ensures Basename(prefix + name) == name
    decreases |name|
  {
    if name != [] {
      var last := |name| - 1;
      assert (prefix + name)[..|prefix + name| - 1] == prefix + name[..last];
      BasenameAfterSeparator(prefix, name[..last]);
      assert name == name[..last] + [name[last]];
    } else {
      assert prefix + name == prefix;
    }
  }

  /**
   * The excludes of the active project.  `files` stands for the exclude
   * files in the settings directory, each a list of lines; the active one
   * is read afresh on every use.
   */
  class Excludes {
    /** The directory the exclude files live in. */
    const dirForSettings: string
    var projectName: string
    var excludeFilePath: string
    var files: map<string, seq<string>>

    ghost predicate Valid()
      reads this
    {
      excludeFilePath == Join(dirForSettings, projectName)
    }

    /** The stored excludes of the active project; a missing file holds none. */
    function Current(): seq<string>
      reads this
    {
      if excludeFilePath in files then files[excludeFilePath] else []
    }

    /** Binds to the project named by the default-directory setting. */
    constructor (dir: string, defaultDirectory: string, existing: map<string, seq<string>>)
      ensures Valid()
      ensures dirForSettings == dir && projectName == Basename(defaultDirectory) && files == existing
    {
      dirForSettings := dir;
      projectName := Basename(defaultDirectory);
      excludeFilePath := Join(dir, Basename(defaultDirectory));
      files := existing;
    }

    /** `update_excludes(paths)`: appends the new normalised paths and rewrites the file. */
    method UpdateExcludes(paths: seq<string>)
      requires Valid()
      modifies this
      ensures Valid()
      ensures projectName == old(projectName) && excludeFilePath == old(excludeFilePath)
      ensures files == old(files)[excludeFilePath := AddExcludes(old(Current()), paths)]
      ensures NoDuplicates(old(Current())) ==> NoDuplicates(Current())
    {
      var stored := Current();
      var i := 0;
      while i < |paths|
        invariant 0 <= i <= |paths|
        invariant AddExcludes(stored, paths[i..]) == AddExcludes(Current(), paths)
      {
        assert paths[i..][1..] == paths[i + 1..];
        stored := AddExclude(stored, paths[i]);
        i := i + 1;
      }
      ghost var before := Current();
      AddExcludesShape(before, paths);
      files := files[excludeFilePath := stored];
    }

    /** `check_path(path)`: whether `path` is a stored entry or lies under one. */
    method CheckPath(path: string) returns (r: bool)
      ensures r == Excluded(Current(), path)
    {
      var entries := Current();
      var i := 0;
      while i < |entries|
        invariant 0 <= i <= |entries|
        invariant forall j :: 0 <= j < i ==> !Covers(entries[j], path)
      {
        if path == entries[i] || entries[i] + "/" <= path {
          return true;
        }
        i := i + 1;
      }
      return false;
    }

    /** `setting_changed(key, old, new)`: a new default directory switches the project. */
    method SettingChanged(key: string, oldValue: string, newValue: string)
      requires Valid()
      modifies this
      ensures Valid() && files == old(files)
      ensures key == DefaultDirectoryKey ==>
        projectName == Basename(newValue) && excludeFilePath == Join(dirForSettings, Basename(newValue))
      ensures key != DefaultDirectoryKey ==> projectName == old(projectName) && excludeFilePath == old(excludeFilePath)
    {
      if key == DefaultDirectoryKey {
        var name := Basename(newValue);
        projectName, excludeFilePath := name, Join(dirForSettings, name);
      }
    }
  }
}
