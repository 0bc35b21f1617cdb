/**
 * The settings tree: a section maps each key either to a leaf value or to a
 * child section of the same shape, so sections nest to any depth.  A section
 * is addressed by the path of section names leading to it from the root.
 */
module SettingsTree {
  import opened Wrappers

  /** Leaf values a setting can hold (floating point is not modelled). */
  datatype Scalar =
    | Null
    | Bool(b: bool)
    | Int(i: int)
    | Str(s: string)
    | List(items: seq<Scalar>)
    | Mapping(fields: map<string, Scalar>)

  /** One entry of a section: a leaf value or a nested section. */
  datatype Node = Leaf(value: Scalar) | Section(entries: Entries)

  type Entries = map<string, Node>

  /** The two directions of a structural conflict; both are a SectionError. */
  datatype SectionError = ValueOverSection | SectionOverValue

  /** The entries of the section reached from `t` by following `path`. */
  function SectionAt(t: Entries, path: seq<string>): Option<Entries>
    decreases |path|
  {
    if path == [] then Some(t)
    else if path[0] in t && t[path[0]].Section? then SectionAt(t[path[0]].entries, path[1..])
    else None
  }

  /** `t[path][key]`, the value read through a section's item access. */
  function Lookup(t: Entries, path: seq<string>, key: string): Option<Node>
  {
    match SectionAt(t, path)
    case None => None
    case Some(s) => if key in s then Some(s[key]) else None
  }

  /** `t` with the section at `path` holding `e` instead of its old entries. */
  function ReplaceAt(t: Entries, path: seq<string>, e: Entries): Entries
    requires SectionAt(t, path).Some?
    decreases |path|
  {
    if path == [] then e
    else t[path[0] := Section(ReplaceAt(t[path[0]].entries, path[1..], e))]
  }

  /** After replacing the section at `p`, reading `p` gives the new entries. */
  lemma {:induction false} ReplaceAtFocus(t: Entries, p: seq<string>, e: Entries)
    requires SectionAt(t, p).Some?
    ensures SectionAt(ReplaceAt(t, p, e), p) == Some(e)
    decreases |p|
  {
    if p != [] {
      ReplaceAtFocus(t[p[0]].entries, p[1..], e);
    }
  }

  /** Writing a section's own entries back into it leaves the tree as it was. */
  lemma {:induction false} ReplaceAtSame(t: Entries, p: seq<string>)
    requires SectionAt(t, p).Some?
    ensures ReplaceAt(t, p, SectionAt(t, p).value) == t
    decreases |p|
  {
    if p != [] {
      ReplaceAtSame(t[p[0]].entries, p[1..]);
      assert t[p[0] := Section(t[p[0]].entries)] == t;
    }
  }

  /** A section neither above nor below `p` is untouched by replacing `p`. */
  lemma {:induction false} ReplaceAtElsewhere(t: Entries, p: seq<string>, e: Entries, q: seq<string>)
    requires SectionAt(t, p).Some?
    requires !(q <= p) && !(p <= q)
    ensures SectionAt(ReplaceAt(t, p, e), q) == SectionAt(t, q)
    decreases |p|
  {
    assert p != [] && q != [];
    if p[0] == q[0] {
      ReplaceAtElsewhere(t[p[0]].entries, p[1..], e, q[1..]);
    }
  }

  /**
   * A section strictly above `p` keeps every key except the one leading
   * towards `p`, which stays a section.
   */
  lemma {:induction false} ReplaceAtAncestor(t: Entries, p: seq<string>, e: Entries, q: seq<string>)
    requires SectionAt(t, p).Some?
    requires q < p
    ensures SectionAt(t, q).Some? && SectionAt(ReplaceAt(t, p, e), q).Some?
    ensures var before, after := SectionAt(t, q).value, SectionAt(ReplaceAt(t, p, e), q).value;
      && after.Keys == before.Keys
      && p[|q|] in before && after[p[|q|]].Section?
      && forall k :: k in before && k != p[|q|] ==> after[k] == before[k]
    decreases |p|
  {
    if q != [] {
      assert q[0] == p[0];
      assert q[1..] < p[1..];
      ReplaceAtAncestor(t[p[0]].entries, p[1..], e, q[1..]);
    }
  }

  /** The section at `p + [k]` is the child section `k` of the section at `p`. */
  lemma {:induction false} SectionAtChild(t: Entries, p: seq<string>, k: string)
    requires SectionAt(t, p).Some?
    ensures SectionAt(t, p + [k]) ==
      (var s := SectionAt(t, p).value; if k in s && s[k].Section? then Some(s[k].entries) else None)
    decreases |p|
  {
    if p != [] {
      assert (p + [k])[1..] == p[1..] + [k];
      SectionAtChild(t[p[0]].entries, p[1..], k);
    }
  }
}
