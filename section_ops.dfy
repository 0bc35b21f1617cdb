/**
 * The writes a settings section supports, stated on the section's entries:
 * item assignment / `set`, `set_values`, `set_defaults` and `add_section`.
 */
module SectionOps {
  import opened Wrappers
  import opened SettingsTree

  /** `r` holds every key of `target` unchanged and takes from `source` only the keys `target` lacks. */
  ghost predicate DefaultFilled(target: Entries, source: Entries, r: Entries)
  {
    && r.Keys == target.Keys + source.Keys
    && (forall k :: k in target ==> r[k] == target[k])
    && (forall k :: k in source && k !in target ==> r[k] == source[k])
  }

  /** The child section `key` of `m`, or an empty section when there is none yet. */
  function ChildOrEmpty(m: Entries, key: string): Entries
  {
    if key in m && m[key].Section? then m[key].entries else map[]
  }

  /**
   * `section.set(key, value, override)`.  A scalar over a section, or a
   * section over a scalar, is a SectionError.  A scalar is written when the
   * key is new or `override` holds.  A section value is merged into the
   * target section: with `override` the target ends up with exactly the
   * source's entries, without it only the missing keys are copied.
   */
  function Assign(m: Entries, key: string, value: Node, override: bool): (r: Result<Entries, SectionError>)
    ensures r.Failure? <==> key in m && m[key].Section? != value.Section?
    ensures r.Failure? ==> r.error == (if value.Leaf? then ValueOverSection else SectionOverValue)
    ensures r.Success? ==> r.value.Keys == m.Keys + {key}
    ensures r.Success? ==> forall k :: k in m && k != key ==> r.value[k] == m[k]
    ensures r.Success? && value.Leaf? && (override || key !in m) ==> r.value[key] == value
    ensures r.Success? && value.Leaf? && !override && key in m ==> r.value[key] == m[key]
    ensures r.Success? && value.Section? && override ==> r.value[key] == value
    ensures r.Success? && value.Section? && !override ==>
      r.value[key].Section? && DefaultFilled(ChildOrEmpty(m, key), value.entries, r.value[key].entries)
  {
    if key in m && m[key].Section? && value.Leaf? then Failure(ValueOverSection)
    else if key in m && m[key].Leaf? && value.Section? then Failure(SectionOverValue)
    else match value
      case Leaf(_) =>
        if key !in m || override then Success(m[key := value]) else Success(m)
      case Section(source) =>
        var target := ChildOrEmpty(m, key);
        Success(m[key := Section(if override then source else source + target)])
  }

  /** A mapping of plain values as section entries. */
  function Leaves(vals: map<string, Scalar>): (r: Entries)
    ensures r.Keys == vals.Keys
    ensures forall k :: k in vals ==> r[k] == Leaf(vals[k])
  {
    map k | k in vals :: Leaf(vals[k])
  }

  /** Some key of `vals` already names a section of `m`. */
  predicate ValuesClash(m: Entries, vals: map<string, Scalar>)
  {
    exists k :: k in vals && k in m && m[k].Section?
  }

  /**
   * `set_values(vals, override)`: `set` for every key of `vals`.  It fails
   * with a SectionError, changing nothing, when a key names a section.
   */
  function AssignValues(m: Entries, vals: map<string, Scalar>, override: bool): (r: Result<Entries, SectionError>)
    ensures r.Failure? <==> ValuesClash(m, vals)
    ensures r.Failure? ==> r.error == ValueOverSection
    ensures r.Success? ==> r.value.Keys == m.Keys + vals.Keys
    ensures r.Success? ==> forall k :: k in vals && (override || k !in m) ==> r.value[k] == Leaf(vals[k])
    ensures r.Success? ==> forall k :: k in m && (!override || k !in vals) ==> r.value[k] == m[k]
  {
    if ValuesClash(m, vals) then Failure(ValueOverSection)
    else if override then Success(m + Leaves(vals))
    else Success(Leaves(vals) + m)
  }

  /** `vals` restricted to the keys in `done`. */
  function Restrict(vals: map<string, Scalar>, done: set<string>): map<string, Scalar>
  {
    map k | k in vals && k in done :: vals[k]
  }

  /** The entries after `set_values` has handled the keys in `done`. */
  function Partial(m: Entries, vals: map<string, Scalar>, done: set<string>, override: bool): Entries
  {
    if override then m + Leaves(Restrict(vals, done)) else Leaves(Restrict(vals, done)) + m
  }

  /** A key not yet handled still has its original entry. */
  lemma PartialUntouched(m: Entries, vals: map<string, Scalar>, done: set<string>, override: bool, k: string)
    requires k !in done
    ensures k in Partial(m, vals, done, override) <==> k in m
    ensures k in m ==> Partial(m, vals, done, override)[k] == m[k]
  {
  }

  /** Handling one more key with `set` extends the partial result by that key. */
  lemma PartialStep(m: Entries, vals: map<string, Scalar>, done: set<string>, override: bool, k: string)
    requires k in vals && k !in done
    requires !(k in m && m[k].Section?)
    ensures Assign(Partial(m, vals, done, override), k, Leaf(vals[k]), override)
         == Success(Partial(m, vals, done + {k}, override))
  {
    PartialUntouched(m, vals, done, override, k);
    assert Restrict(vals, done + {k}) == Restrict(vals, done)[k := vals[k]];
    var before := Partial(m, vals, done, override);
    var after := Partial(m, vals, done + {k}, override);
    var step := Assign(before, k, Leaf(vals[k]), override);
    assert step.Success?;
    assert step.value.Keys == after.Keys;
    forall j | j in after ensures step.value[j] == after[j] {
      if j != k {
        assert after[j] == before[j];
      } else if override || k !in m {
        assert Leaves(Restrict(vals, done + {k}))[k] == Leaf(vals[k]);
      }
    }
    assert step.value == after;
  }

  /** The loop of `set_values`: `set` applied to each key of `vals` in turn. */
  method ApplyValues(m: Entries, vals: map<string, Scalar>, override: bool) returns (r: Result<Entries, SectionError>)
    ensures r == AssignValues(m, vals, override)
  {
    var acc := m;
    var todo := vals.Keys;
    ghost var done: set<string> := {};
    assert Restrict(vals, {}) == map[];
    assert Partial(m, vals, {}, override) == m;
    while todo != {}
      invariant todo <= vals.Keys && done == vals.Keys - todo
      invariant forall j :: j in done ==> !(j in m && m[j].Section?)
      invariant acc == Partial(m, vals, done, override)
      decreases todo
    {
      var k :| k in todo;
      PartialUntouched(m, vals, done, override, k);
      var step := Assign(acc, k, Leaf(vals[k]), override);
      if step.Failure? {
        assert ValuesClash(m, vals);
        return Failure(ValueOverSection);
      }
      PartialStep(m, vals, done, override, k);
      acc := step.value;
      todo := todo - {k};
      done := done + {k};
    }
    assert Restrict(vals, done) == vals;
    assert !ValuesClash(m, vals);
    r := Success(acc);
  }

  /**
   * `add_section(name, **defaults)`: the child section `name`, created empty
   * when absent, with `defaults` filled in where its keys are missing.
   * A scalar under `name` is a SectionError.
   */
  function AddSection(m: Entries, name: string, defaults: map<string, Scalar>): (r: Result<Entries, SectionError>)
    ensures r.Failure? <==>
      (name in m && m[name].Leaf?) || ValuesClash(ChildOrEmpty(m, name), defaults)
    ensures r.Success? ==> r.value.Keys == m.Keys + {name}
    ensures r.Success? ==> forall k :: k in m && k != name ==> r.value[k] == m[k]
    ensures r.Success? ==>
      r.value[name].Section? && DefaultFilled(ChildOrEmpty(m, name), Leaves(defaults), r.value[name].entries)
  {
    if name in m && m[name].Leaf? then Failure(SectionOverValue)
    else
      match AssignValues(ChildOrEmpty(m, name), defaults, false)
      case Failure(e) => Failure(e)
      case Success(filled) => Success(m[name := Section(filled)])
  }

  /** A section created by `add_section` holds exactly its keyword defaults. */
  lemma NewSectionHoldsDefaults(m: Entries, name: string, defaults: map<string, Scalar>)
    requires name !in m
    ensures AddSection(m, name, defaults) == Success(m[name := Section(Leaves(defaults))])
  {
    assert Leaves(defaults) + map[] == Leaves(defaults);
  }

  /**
   * `add_section` is idempotent: calling it again, with the same or with no
   * defaults, returns the existing section with its contents intact.
   */
  lemma {:induction false} AddSectionIdempotent(m: Entries, name: string, defaults: map<string, Scalar>)
    requires AddSection(m, name, defaults).Success?
    ensures var m' := AddSection(m, name, defaults).value;
      AddSection(m', name, defaults) == Success(m') && AddSection(m', name, map[]) == Success(m')
  {
    var m' := AddSection(m, name, defaults).value;
    var s := m'[name].entries;
    assert ChildOrEmpty(m', name) == s;
    assert !ValuesClash(s, defaults);
    assert Leaves(defaults) + s == s;
    assert Leaves(map[]) + s == s;
    assert m'[name := Section(s)] == m';
  }

  /** `add_section` on an existing section without defaults returns it untouched. */
  lemma AddSectionExisting(m: Entries, name: string)
    requires name in m && m[name].Section?
    ensures AddSection(m, name, map[]) == Success(m)
  {
    AssignNoValues(m[name].entries, false);
    assert m[name := Section(m[name].entries)] == m;
  }

  /** Default-fill never overwrites: keys present before keep their values. */
  lemma DefaultFillKeepsExisting(m: Entries, vals: map<string, Scalar>)
    requires AssignValues(m, vals, false).Success?
    ensures DefaultFilled(m, Leaves(vals), AssignValues(m, vals, false).value)
  {
  }

  /** A `set_values` with an empty mapping changes nothing, whatever `override` is. */
  lemma AssignNoValues(m: Entries, override: bool)
    ensures AssignValues(m, map[], override) == Success(m)
  {
    assert m + Leaves(map[]) == m;
    assert Leaves(map[]) + m == m;
  }
}
