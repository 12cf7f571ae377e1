/**
 * Parsed JSON values, and the positions inside them: a path is the list of property
 * names that leads from the root object to a nested value. `GetAt` reads the value at a
 * path and `SetAt` is the assignment `ref[key] = value` made through the reference that
 * the path stands for.
 */
module JsonValues {
  import opened Wrappers

  /** A parsed JSON value. Numbers are integers here; objects are maps from property name. */
  datatype Json =
    | JNull
    | JBool(b: bool)
    | JNum(n: int)
    | JStr(s: string)
    | JArr(items: seq<Json>)
    | JObj(fields: map<string, Json>)

  type Path = seq<string>

  predicate IsPrefix(p: Path, q: Path) {
    |p| <= |q| && q[..|p|] == p
  }

  /** Two positions neither of which lies inside the other. */
  predicate Incomparable(p: Path, q: Path) {
    !IsPrefix(p, q) && !IsPrefix(q, p)
  }

  /** The value at path `q`, or `None` when some property on the way is missing or not in an object. */
  function GetAt(m: Json, q: Path): Option<Json>
    decreases |q|
  {
    if q == [] then Some(m)
    else if m.JObj? && q[0] in m.fields then GetAt(m.fields[q[0]], q[1..])
    else None
  }

  /**
   * `ref[key] = v` where `ref` is the object at `q` without its last name and `key` is
   * that last name: the property is added or replaced. A path through a missing property
   * or a non-object changes nothing.
   */
  function SetAt(m: Json, q: Path, v: Json): Json
    decreases |q|
  {
    if q == [] then v
    else
      match m
      case JObj(f) =>
        if |q| == 1 then JObj(f[q[0] := v])
        else if q[0] in f then JObj(f[q[0] := SetAt(f[q[0]], q[1..], v)])
        else m
      case _ => m
  }

  lemma PrefixCons(a: string, p: Path, q: Path)
    ensures IsPrefix([a] + p, [a] + q) <==> IsPrefix(p, q)
  {
    if |p| <= |q| {
      assert ([a] + q)[..|[a] + p|] == [a] + q[..|p|];
      assert ([a] + p)[1..] == p && ([a] + q[..|p|])[1..] == q[..|p|];
    }
  }

  lemma IncomparableTails(a: string, p: Path, q: Path)
    requires Incomparable([a] + p, [a] + q)
    ensures Incomparable(p, q)
  {
    PrefixCons(a, p, q);
    PrefixCons(a, q, p);
  }

  lemma PrefixOfExtension(q: Path, p: Path, k: string)
    ensures IsPrefix(q, p + [k]) ==> IsPrefix(q, p) || q == p + [k]
    ensures IsPrefix(p + [k], q) ==> IsPrefix(p, q)
  {
    if |q| <= |p| {
      assert (p + [k])[..|q|] == p[..|q|];
    }
    if |p| < |q| {
      assert q[..|p|] == q[..|p + [k]|][..|p|];
    }
  }

  /** A position outside `p` is outside every position below `p`. */
  lemma IncomparableExtend(p: Path, q: Path, k: string)
    requires Incomparable(p, q)
    ensures Incomparable(p + [k], q)
  {
    PrefixOfExtension(q, p, k);
    assert (p + [k])[..|p|] == p;
  }

  /** Reading back an assignment at an existing position gives the assigned value. */
  lemma {:induction false} GetSetSame(m: Json, q: Path, v: Json)
    requires GetAt(m, q).Some?
    ensures GetAt(SetAt(m, q, v), q) == Some(v)
    decreases |q|
  {
    if |q| > 1 {
      GetSetSame(m.fields[q[0]], q[1..], v);
    }
  }

  /** Assigning a position the value it already holds changes nothing. */
  lemma {:induction false} SetGetSame(m: Json, q: Path, x: Json)
    requires GetAt(m, q) == Some(x)
    ensures SetAt(m, q, x) == m
    decreases |q|
  {
    if |q| > 1 {
      SetGetSame(m.fields[q[0]], q[1..], x);
    }
  }

  /** A second assignment at the same position overrides the first. */
  lemma {:induction false} SetSetSame(m: Json, q: Path, v: Json, w: Json)
    ensures SetAt(SetAt(m, q, v), q, w) == SetAt(m, q, w)
    decreases |q|
  {
    if q != [] && m.JObj? {
      var f := m.fields;
      if |q| == 1 {
        assert f[q[0] := v][q[0] := w] == f[q[0] := w];
      } else if q[0] in f {
        var c := f[q[0]];
        SetSetSame(c, q[1..], v, w);
        assert f[q[0] := SetAt(c, q[1..], v)][q[0] := SetAt(SetAt(c, q[1..], v), q[1..], w)]
          == f[q[0] := SetAt(c, q[1..], w)];
      }
    }
  }

  /** The child `k` of the object at `p`. */
  lemma {:induction false} GetChild(m: Json, p: Path, d: map<string, Json>, k: string)
    requires GetAt(m, p) == Some(JObj(d))
    ensures GetAt(m, p + [k]) == if k in d then Some(d[k]) else None
    decreases |p|
  {
    if p != [] {
      assert (p + [k])[1..] == p[1..] + [k];
      GetChild(m.fields[p[0]], p[1..], d, k);
    }
  }

  /** Assigning the child `k` of the object at `p` replaces that object by its update. */
  lemma {:induction false} SetChild(m: Json, p: Path, d: map<string, Json>, k: string, x: Json)
    requires GetAt(m, p) == Some(JObj(d))
    ensures SetAt(m, p + [k], x) == SetAt(m, p, JObj(d[k := x]))
    decreases |p|
  {
    if p != [] {
      assert (p + [k])[0] == p[0] && (p + [k])[1..] == p[1..] + [k];
      SetChild(m.fields[p[0]], p[1..], d, k, x);
    }
  }

  /** An assignment is invisible at every position outside it. */
  lemma {:induction false} GetSetOther(m: Json, p: Path, q: Path, v: Json)
    requires Incomparable(p, q)
    ensures GetAt(SetAt(m, p, v), q) == GetAt(m, q)
    decreases |p|
  {
    assert p != [] && q != [];
    if m.JObj? && p[0] == q[0] {
      assert |p| > 1 && |q| > 1;
      if p[0] in m.fields {
        assert p == [p[0]] + p[1..] && q == [q[0]] + q[1..];
        IncomparableTails(p[0], p[1..], q[1..]);
        GetSetOther(m.fields[p[0]], p[1..], q[1..], v);
      }
    }
  }

  /** The new value of property `q[0]` after an assignment at `q`, or `None` when nothing changes. */
  function NewChild(f: map<string, Json>, q: Path, v: Json): Option<Json>
    requires q != []
  {
    if |q| == 1 then Some(v)
    else if q[0] in f then Some(SetAt(f[q[0]], q[1..], v))
    else None
  }

  /** The properties of an object after an assignment below it. */
  function SetField(f: map<string, Json>, q: Path, v: Json): map<string, Json>
    requires q != []
  {
    match NewChild(f, q, v)
    case Some(x) => f[q[0] := x]
    case None => f
  }

  lemma SetAtObject(f: map<string, Json>, q: Path, v: Json)
    requires q != []
    ensures SetAt(JObj(f), q, v) == JObj(SetField(f, q, v))
  {
  }

  lemma NewChildOtherHead(f: map<string, Json>, g: map<string, Json>, q: Path, v: Json)
    requires q != []
    requires (q[0] in f <==> q[0] in g) && (q[0] in f ==> f[q[0]] == g[q[0]])
    ensures NewChild(f, q, v) == NewChild(g, q, v)
  {
  }

  lemma SetFieldDistinctHeads(f: map<string, Json>, p: Path, q: Path, v: Json, w: Json)
    requires p != [] && q != [] && p[0] != q[0]
    ensures SetField(SetField(f, p, v), q, w) == SetField(SetField(f, q, w), p, v)
  {
    var g := SetField(f, p, v);
    var h := SetField(f, q, w);
    NewChildOtherHead(f, g, q, w);
    NewChildOtherHead(f, h, p, v);
    var x := NewChild(f, p, v);
    var y := NewChild(f, q, w);
    if x.Some? && y.Some? {
      assert f[p[0] := x.value][q[0] := y.value] == f[q[0] := y.value][p[0] := x.value];
    }
  }

  /** Assignments at positions outside each other commute. */
  lemma {:induction false} SetSetCommute(m: Json, p: Path, q: Path, v: Json, w: Json)
    requires Incomparable(p, q)
    ensures SetAt(SetAt(m, p, v), q, w) == SetAt(SetAt(m, q, w), p, v)
    decreases |p|
  {
    assert p != [] && q != [];
    if m.JObj? {
      var f := m.fields;
      SetAtObject(f, p, v);
      SetAtObject(f, q, w);
      SetAtObject(SetField(f, p, v), q, w);
      SetAtObject(SetField(f, q, w), p, v);
      if p[0] != q[0] {
        SetFieldDistinctHeads(f, p, q, v, w);
      } else {
        assert |p| > 1 && |q| > 1;
        if p[0] in f {
          assert p == [p[0]] + p[1..] && q == [q[0]] + q[1..];
          IncomparableTails(p[0], p[1..], q[1..]);
          SetSetCommute(f[p[0]], p[1..], q[1..], v, w);
        }
      }
    }
  }

  /** The paths of the objects inside `v` (including `v` itself when it is an object). */
  ghost function ObjectPaths(v: Json): set<Path>
    decreases v
  {
    match v
    case JObj(f) => {[]} + (set k, r | k in f && r in ObjectPaths(f[k]) :: [k] + r)
    case _ => {}
  }
}
