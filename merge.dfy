/**
 * `mergeConfigsIterative`: the user's configuration laid over the default one. The
 * default's top-level properties are copied; then a stack of (user object, merged object)
 * pairs is worked off. For every property of the user object, two non-array objects on
 * both sides are pushed to be merged later, and anything else is assigned over the merged
 * side. Here the merged tree is a value and a reference into it is the path that leads to
 * it from the root.
 */
module ConfigMerge {
  import opened Wrappers
  import opened Text
  import opened JsonValues

  // ---------------------------------------------------------------------------
  // the merge, stated recursively

  /** `user` laid over `def`: two objects merge property by property, otherwise the user value wins. */
  function Merge(user: Json, def: Json): Json
    decreases user
  {
    if user.JObj? && def.JObj? then
      JObj(map k | k in user.fields.Keys + def.fields.Keys ::
        if k in user.fields then
          (if k in def.fields then Merge(user.fields[k], def.fields[k]) else user.fields[k])
        else def.fields[k])
    else user
  }

  /** The properties of the user object `u` laid over those of the default object `d`. */
  function MergeFields(u: map<string, Json>, d: map<string, Json>): (r: map<string, Json>)
    ensures r.Keys == u.Keys + d.Keys
    ensures forall k :: k in d && k !in u ==> r[k] == d[k]
    ensures forall k :: k in u && !(u[k].JObj? && k in d && d[k].JObj?) ==> r[k] == u[k]
    ensures forall k :: k in u && u[k].JObj? && k in d && d[k].JObj? ==>
      r[k] == JObj(MergeFields(u[k].fields, d[k].fields))
    ensures u == map[] ==> r == d
    decreases JObj(u)
  {
    var r := Merge(JObj(u), JObj(d)).fields;
    assert forall k :: k in u && k in d && !(u[k].JObj? && d[k].JObj?) ==> Merge(u[k], d[k]) == u[k];
    r
  }

  /** The properties that `for (const key in v)` visits, with the values `v[key]` reads. */
  function ForInEntries(v: Json): (r: map<string, Json>)
    ensures v.JObj? ==> r == v.fields
    ensures v.JArr? ==> forall i :: 0 <= i < |v.items| ==> NatToString(i) in r && r[NatToString(i)] == v.items[i]
    ensures v.JStr? ==> forall i :: 0 <= i < |v.s| ==> NatToString(i) in r && r[NatToString(i)] == JStr([v.s[i]])
    ensures !v.JObj? && !v.JArr? && !v.JStr? ==> r == map[]
  {
    NatToStringInjective();
    match v
    case JObj(f) => f
    case JArr(items) => map i | 0 <= i < |items| :: NatToString(i) := items[i]
    case JStr(s) => map i | 0 <= i < |s| :: NatToString(i) := JStr([s[i]])
    case _ => map[]
  }

  /** The user object leaves position `q` of the default alone: the user has no value on the way there other than objects. */
  predicate Untouched(u: map<string, Json>, q: Path)
    decreases |q|
  {
    q != [] && (q[0] !in u || (|q| > 1 && u[q[0]].JObj? && Untouched(u[q[0]].fields, q[1..])))
  }

  /** A default value the user does not reach survives the merge, at any depth. */
  lemma {:induction false} DefaultsSurvive(u: map<string, Json>, d: map<string, Json>, q: Path, x: Json)
    requires GetAt(JObj(d), q) == Some(x) && Untouched(u, q)
    ensures GetAt(JObj(MergeFields(u, d)), q) == Some(x)
    decreases |q|
  {
    var a := q[0];
    var r := MergeFields(u, d);
    if a in u {
      assert d[a].JObj?;
      DefaultsSurvive(u[a].fields, d[a].fields, q[1..], x);
    }
  }

  /** A user value that is not an object is what the merge holds at its position, at any depth. */
  lemma {:induction false} UserValuesWin(u: map<string, Json>, d: map<string, Json>, q: Path, x: Json)
    requires q != [] && GetAt(JObj(u), q) == Some(x) && !x.JObj?
    ensures GetAt(JObj(MergeFields(u, d)), q) == Some(x)
    decreases |q|
  {
    var a := q[0];
    var r := MergeFields(u, d);
    if |q| > 1 && a in d && d[a].JObj? && u[a].JObj? {
      UserValuesWin(u[a].fields, d[a].fields, q[1..], x);
    }
  }

  /** An object merged over itself is itself. */
  lemma {:induction false} MergeSelf(f: map<string, Json>)
    ensures MergeFields(f, f) == f
    decreases JObj(f)
  {
    var r := MergeFields(f, f);
    forall k | k in f && f[k].JObj?
      ensures r[k] == f[k]
    {
      MergeSelf(f[k].fields);
    }
  }

  /**
   * Merging the defaults in again changes nothing: the configuration written after one
   * merge is a fixed point of the next.
   */
  lemma {:induction false} MergeStable(u: map<string, Json>, d: map<string, Json>)
    ensures MergeFields(MergeFields(u, d), d) == MergeFields(u, d)
    decreases JObj(u)
  {
    var r := MergeFields(u, d);
    var r2 := MergeFields(r, d);
    forall k | k in r && k in d && r[k].JObj? && d[k].JObj?
      ensures r2[k] == r[k]
    {
      if k in u {
        MergeStable(u[k].fields, d[k].fields);
      } else {
        MergeSelf(d[k].fields);
      }
    }
  }

  // ---------------------------------------------------------------------------
  // pending work: a task merges a user value into whatever the merged tree holds at a path

  datatype Task = Task(path: Path, user: Json)

  /** What a pending merge leaves at its position: the user value, merged with what was there. */
  function MergeInto(user: Json, current: Option<Json>): Json {
    match current
    case None => user
    case Some(d) => Merge(user, d)
  }

  function Exec(m: Json, t: Task): Json {
    SetAt(m, t.path, MergeInto(t.user, GetAt(m, t.path)))
  }

  function ApplyAll(m: Json, ts: seq<Task>): Json
    decreases |ts|
  {
    if ts == [] then m else ApplyAll(Exec(m, ts[0]), ts[1..])
  }

  /** A stack entry: the user object still to merge and the position of its merged counterpart. */
  datatype Frame = Frame(userRef: map<string, Json>, mergedRef: Path)

  function FrameTask(f: Frame): Task {
    Task(f.mergedRef, JObj(f.userRef))
  }

  /** The pending work of a stack, top first. */
  function StackTasks(stack: seq<Frame>): seq<Task>
    decreases |stack|
  {
    if stack == [] then [] else [FrameTask(stack[|stack| - 1])] + StackTasks(stack[..|stack| - 1])
  }

  /** The pending work of the properties `ks` of the user object `u`, whose merged counterpart is at `p`. */
  function KeyTasks(p: Path, u: map<string, Json>, ks: seq<string>): seq<Task>
    requires forall i :: 0 <= i < |ks| ==> ks[i] in u
    decreases |ks|
  {
    if ks == [] then [] else [Task(p + [ks[0]], u[ks[0]])] + KeyTasks(p, u, ks[1..])
  }

  function Lookup(d: map<string, Json>, k: string): Option<Json> {
    if k in d then Some(d[k]) else None
  }

  /** The object `d` after the properties `ks` of `u` have been merged into it one by one. */
  function MergeKeys(d: map<string, Json>, u: map<string, Json>, ks: seq<string>): map<string, Json>
    requires forall i :: 0 <= i < |ks| ==> ks[i] in u
    decreases |ks|
  {
    if ks == [] then d else MergeKeys(d[ks[0] := MergeInto(u[ks[0]], Lookup(d, ks[0]))], u, ks[1..])
  }

  predicate PairwiseIncomparable(stack: seq<Frame>) {
    forall i, j :: 0 <= i < j < |stack| ==> Incomparable(stack[i].mergedRef, stack[j].mergedRef)
  }

  predicate ObjectAt(m: Json, p: Path) {
    GetAt(m, p).Some? && GetAt(m, p).value.JObj?
  }

  // ---------------------------------------------------------------------------
  // the iterative merge

  /** The keys of `u`, each once, in the (unspecified) order `for...in` visits them. */
  method KeysOf(u: map<string, Json>) returns (ks: seq<string>)
    ensures NoDuplicates(ks)
    ensures forall k :: k in u <==> k in ks
  {
    ks := [];
    var rest := u.Keys;
    while rest != {}
      invariant NoDuplicates(ks)
      invariant forall k :: k in u <==> k in rest || k in ks
      invariant forall k :: k in rest ==> k !in ks
      decreases rest
    {
      var k :| k in rest;
      ks := ks + [k];
      rest := rest - {k};
    }
  }

  /**
   * `mergeConfigsIterative(userObj, defaultObj)`: the default's properties with the user's
   * laid over them, objects merged at every depth.
   */
  method MergeConfigsIterative(userObj: Json, defaultObj: map<string, Json>) returns (merged: Json)
    ensures merged == JObj(MergeFields(ForInEntries(userObj), defaultObj))
  {
    var top := ForInEntries(userObj);
    ghost var final := JObj(MergeFields(top, defaultObj));
    merged := JObj(defaultObj);
    var stack := [Frame(top, [])];
    ghost var todo := ObjectPaths(JObj(top));
    StartInvariants(top, defaultObj);
    while stack != []
      invariant ApplyAll(merged, StackTasks(stack)) == final
      invariant StackObjects(merged, stack) && PairwiseIncomparable(stack)
      invariant StackPending(stack, todo)
      decreases todo
    {
      var frame := stack[|stack| - 1];
      var p := frame.mergedRef;
      var u := frame.userRef;
      var keys := KeysOf(u);
      PopKeepsInvariants(merged, stack, keys, final, todo);
      stack := stack[..|stack| - 1];
      todo := todo - {p};

      merged, stack := MergeProperties(merged, stack, p, u, keys, final, todo);
    }
  }

  /**
   * The body of the outer loop after the pop: `for (const key in userRef)`, pushing a pair
   * of objects or assigning the user value through the frame's merged reference `p`.
   */
  method MergeProperties(m0: Json, stack0: seq<Frame>, p: Path, u: map<string, Json>, keys: seq<string>,
                         ghost final: Json, ghost todo: set<Path>)
    returns (merged: Json, stack: seq<Frame>)
    requires NoDuplicates(keys) && forall l :: 0 <= l < |keys| ==> keys[l] in u
    requires ApplyAll(m0, KeyTasks(p, u, keys[0..]) + StackTasks(stack0)) == final
    requires StackObjects(m0, stack0) && PairwiseIncomparable(stack0) && KeysOutside(stack0, p, keys, 0)
    requires StackPending(stack0, todo) && KeysPending(p, u, keys, 0, todo)
    ensures ApplyAll(merged, StackTasks(stack)) == final
    ensures StackObjects(merged, stack) && PairwiseIncomparable(stack) && StackPending(stack, todo)
  {
    merged, stack := m0, stack0;
    var i := 0;
    while i < |keys|
      invariant 0 <= i <= |keys|
      invariant ApplyAll(merged, KeyTasks(p, u, keys[i..]) + StackTasks(stack)) == final
      invariant StackObjects(merged, stack) && PairwiseIncomparable(stack)
      invariant KeysOutside(stack, p, keys, i)
      invariant StackPending(stack, todo) && KeysPending(p, u, keys, i, todo)
    {
      var key := keys[i];
      var userVal := u[key];
      var mergedVal := GetAt(merged, p + [key]);
      KeyTasksStep(p, u, keys, i);
      if userVal.JObj? && mergedVal.Some? && mergedVal.value.JObj? {
        PushStep(merged, stack, p, u, keys, i);
        PushKeepsInvariants(merged, stack, p, u, keys, i, todo);
        stack := stack + [Frame(userVal.fields, p + [key])];
      } else {
        SetStep(merged, stack, p, u, keys, i);
        SetKeepsInvariants(merged, stack, p, u, keys, i, todo);
        merged := SetAt(merged, p + [key], userVal);
      }
      i := i + 1;
    }
    assert keys[i..] == [];
    assert KeyTasks(p, u, keys[i..]) + StackTasks(stack) == StackTasks(stack);
  }

  lemma StartInvariants(top: map<string, Json>, def: map<string, Json>)
    ensures var stack := [Frame(top, [])];
      ApplyAll(JObj(def), StackTasks(stack)) == JObj(MergeFields(top, def))
      && StackObjects(JObj(def), stack) && PairwiseIncomparable(stack)
      && StackPending(stack, ObjectPaths(JObj(top)))
  {
    var stack := [Frame(top, [])];
    assert StackTasks(stack) == [Task([], JObj(top))];
    assert ApplyAll(JObj(def), [Task([], JObj(top))]) == Exec(JObj(def), Task([], JObj(top)));
    forall r | r in ObjectPaths(JObj(top))
      ensures stack[0].mergedRef + r in ObjectPaths(JObj(top))
    {
      assert stack[0].mergedRef + r == r;
    }
  }

  /** Popping the top frame and listing its keys establishes the inner loop's invariants. */
  lemma PopKeepsInvariants(m: Json, stack: seq<Frame>, keys: seq<string>, final: Json, todo: set<Path>)
    requires stack != []
    requires NoDuplicates(keys) && forall k :: k in stack[|stack| - 1].userRef <==> k in keys
    requires ApplyAll(m, StackTasks(stack)) == final
    requires StackObjects(m, stack) && PairwiseIncomparable(stack) && StackPending(stack, todo)
    ensures var f := stack[|stack| - 1];
      var below := stack[..|stack| - 1];
      var todo' := todo - {f.mergedRef};
      && f.mergedRef in todo
      && (forall l :: 0 <= l < |keys| ==> keys[l] in f.userRef)
      && ApplyAll(m, KeyTasks(f.mergedRef, f.userRef, keys[0..]) + StackTasks(below)) == final
      && StackObjects(m, below) && PairwiseIncomparable(below)
      && KeysOutside(below, f.mergedRef, keys, 0)
      && StackPending(below, todo') && KeysPending(f.mergedRef, f.userRef, keys, 0, todo')
  {
    PopTasks(m, stack, keys, final, todo);
    PopFrames(stack, keys, todo);
  }

  /** The pending work after a pop: the frame's properties, then the rest of the stack. */
  lemma PopTasks(m: Json, stack: seq<Frame>, keys: seq<string>, final: Json, todo: set<Path>)
    requires stack != []
    requires NoDuplicates(keys) && forall k :: k in stack[|stack| - 1].userRef <==> k in keys
    requires ApplyAll(m, StackTasks(stack)) == final
    requires StackObjects(m, stack) && StackPending(stack, todo)
    ensures var f := stack[|stack| - 1];
      && f.mergedRef in todo
      && (forall l :: 0 <= l < |keys| ==> keys[l] in f.userRef)
      && ApplyAll(m, KeyTasks(f.mergedRef, f.userRef, keys[0..]) + StackTasks(stack[..|stack| - 1])) == final
  {
    var f := stack[|stack| - 1];
    var below := stack[..|stack| - 1];
    PopStep(m, stack, final, todo);
    ExpandFrame(m, f, keys);
    ApplyAllAppend(m, KeyTasks(f.mergedRef, f.userRef, keys), StackTasks(below));
    assert keys[0..] == keys;
  }

  /** The frames left after a pop keep their invariants, and the popped frame's properties lie outside them. */
  lemma PopFrames(stack: seq<Frame>, keys: seq<string>, todo: set<Path>)
    requires stack != []
    requires forall k :: k in stack[|stack| - 1].userRef <==> k in keys
    requires PairwiseIncomparable(stack) && StackPending(stack, todo)
    ensures var f := stack[|stack| - 1];
      var below := stack[..|stack| - 1];
      var todo' := todo - {f.mergedRef};
      && (forall m :: StackObjects(m, stack) ==> StackObjects(m, below))
      && (forall l :: 0 <= l < |keys| ==> keys[l] in f.userRef)
      && PairwiseIncomparable(below)
      && KeysOutside(below, f.mergedRef, keys, 0)
      && StackPending(below, todo') && KeysPending(f.mergedRef, f.userRef, keys, 0, todo')
  {
    var f := stack[|stack| - 1];
    var below := stack[..|stack| - 1];
    assert forall j :: 0 <= j < |below| ==> below[j] == stack[j];
    forall i | 0 <= i < |keys|
      ensures keys[i] in f.userRef
    {
      assert keys[i] in keys;
    }
    assert forall r :: r in ObjectPaths(JObj(f.userRef)) ==> f.mergedRef + r in todo;
    FrameChildrenPending(f, keys, below, todo);
  }

  predicate StackObjects(m: Json, stack: seq<Frame>) {
    forall i :: 0 <= i < |stack| ==> ObjectAt(m, stack[i].mergedRef)
  }

  /** Every object position the stack's frames will still visit is in `todo`. */
  ghost predicate StackPending(stack: seq<Frame>, todo: set<Path>) {
    forall i, r :: 0 <= i < |stack| && r in ObjectPaths(JObj(stack[i].userRef)) ==> stack[i].mergedRef + r in todo
  }

  /** Every object position below the frame's properties `keys[i..]` is in `todo`. */
  ghost predicate KeysPending(p: Path, u: map<string, Json>, keys: seq<string>, i: nat, todo: set<Path>)
    requires forall l :: 0 <= l < |keys| ==> keys[l] in u
  {
    forall l, r :: i <= l < |keys| && r in ObjectPaths(u[keys[l]]) ==> p + [keys[l]] + r in todo
  }

  predicate KeysOutside(stack: seq<Frame>, p: Path, keys: seq<string>, i: nat) {
    forall j, l :: 0 <= j < |stack| && i <= l < |keys| ==> Incomparable(stack[j].mergedRef, p + [keys[l]])
  }

  lemma PushKeepsInvariants(m: Json, stack: seq<Frame>, p: Path, u: map<string, Json>, keys: seq<string>, i: nat, todo: set<Path>)
    requires i < |keys| && NoDuplicates(keys) && forall l :: 0 <= l < |keys| ==> keys[l] in u
    requires u[keys[i]].JObj? && ObjectAt(m, p + [keys[i]])
    requires StackObjects(m, stack) && PairwiseIncomparable(stack) && KeysOutside(stack, p, keys, i)
    requires StackPending(stack, todo) && KeysPending(p, u, keys, i, todo)
    ensures var stack' := stack + [Frame(u[keys[i]].fields, p + [keys[i]])];
      StackObjects(m, stack') && PairwiseIncomparable(stack') && KeysOutside(stack', p, keys, i + 1)
      && StackPending(stack', todo) && KeysPending(p, u, keys, i + 1, todo)
  {
    var stack' := stack + [Frame(u[keys[i]].fields, p + [keys[i]])];
    forall j, l | 0 <= j < |stack'| && i + 1 <= l < |keys|
      ensures Incomparable(stack'[j].mergedRef, p + [keys[l]])
    {
      if j == |stack| {
        SiblingsIncomparable(p, keys[i], keys[l]);
      }
    }
    assert JObj(u[keys[i]].fields) == u[keys[i]];
  }

  lemma SetKeepsInvariants(m: Json, stack: seq<Frame>, p: Path, u: map<string, Json>, keys: seq<string>, i: nat, todo: set<Path>)
    requires i < |keys| && forall l :: 0 <= l < |keys| ==> keys[l] in u
    requires StackObjects(m, stack) && KeysOutside(stack, p, keys, i)
    requires KeysPending(p, u, keys, i, todo)
    ensures StackObjects(SetAt(m, p + [keys[i]], u[keys[i]]), stack)
    ensures KeysOutside(stack, p, keys, i + 1) && KeysPending(p, u, keys, i + 1, todo)
  {
    forall j | 0 <= j < |stack|
      ensures ObjectAt(SetAt(m, p + [keys[i]], u[keys[i]]), stack[j].mergedRef)
    {
      GetSetOther(m, p + [keys[i]], stack[j].mergedRef, u[keys[i]]);
    }
  }

  // ---------------------------------------------------------------------------
  // the proof of the iterative merge

  lemma {:induction false} ApplyAllAppend(m: Json, a: seq<Task>, b: seq<Task>)
    ensures ApplyAll(m, a + b) == ApplyAll(ApplyAll(m, a), b)
    decreases |a|
  {
    if a == [] {
      assert a + b == b;
    } else {
      assert (a + b)[0] == a[0] && (a + b)[1..] == a[1..] + b;
      ApplyAllAppend(Exec(m, a[0]), a[1..], b);
    }
  }

  /** Pending merges at positions outside each other can be done in either order. */
  lemma ExecCommute(m: Json, s: Task, t: Task)
    requires Incomparable(s.path, t.path)
    ensures Exec(Exec(m, s), t) == Exec(Exec(m, t), s)
  {
    var x := MergeInto(s.user, GetAt(m, s.path));
    var y := MergeInto(t.user, GetAt(m, t.path));
    GetSetOther(m, s.path, t.path, x);
    GetSetOther(m, t.path, s.path, y);
    SetSetCommute(m, s.path, t.path, x, y);
  }

  /** A pending merge can be moved behind merges at positions outside it. */
  lemma {:induction false} MoveBehind(m: Json, t: Task, rs: seq<Task>, tail: seq<Task>)
    requires forall i :: 0 <= i < |rs| ==> Incomparable(t.path, rs[i].path)
    ensures ApplyAll(m, [t] + rs + tail) == ApplyAll(m, rs + [t] + tail)
    decreases |rs|
  {
    if rs == [] {
      assert [t] + rs + tail == rs + [t] + tail;
    } else {
      var r := rs[0];
      calc {
        ApplyAll(m, [t] + rs + tail);
        { assert ([t] + rs + tail)[1..] == [r] + (rs[1..] + tail); }
        ApplyAll(Exec(m, t), [r] + (rs[1..] + tail));
        { assert ([r] + (rs[1..] + tail))[1..] == rs[1..] + tail; }
        ApplyAll(Exec(Exec(m, t), r), rs[1..] + tail);
        { ExecCommute(m, t, r); }
        ApplyAll(Exec(Exec(m, r), t), rs[1..] + tail);
        { assert ([t] + rs[1..] + tail)[1..] == rs[1..] + tail; }
        ApplyAll(Exec(m, r), [t] + rs[1..] + tail);
        { MoveBehind(Exec(m, r), t, rs[1..], tail); }
        ApplyAll(Exec(m, r), rs[1..] + [t] + tail);
        { assert (rs + [t] + tail)[1..] == rs[1..] + [t] + tail; }
        ApplyAll(m, rs + [t] + tail);
      }
    }
  }

  /** Merging the properties `ks` one at a time rewrites the object at `p` to `MergeKeys`. */
  lemma {:induction false} KeyTasksRewrite(m: Json, p: Path, d: map<string, Json>, u: map<string, Json>, ks: seq<string>)
    requires GetAt(m, p) == Some(JObj(d))
    requires forall i :: 0 <= i < |ks| ==> ks[i] in u
    ensures ApplyAll(m, KeyTasks(p, u, ks)) == SetAt(m, p, JObj(MergeKeys(d, u, ks)))
    decreases |ks|
  {
    if ks == [] {
      SetGetSame(m, p, JObj(d));
    } else {
      var k := ks[0];
      var x := MergeInto(u[k], Lookup(d, k));
      GetChild(m, p, d, k);
      SetChild(m, p, d, k, x);
      var m' := SetAt(m, p, JObj(d[k := x]));
      assert Exec(m, Task(p + [k], u[k])) == m';
      GetSetSame(m, p, JObj(d[k := x]));
      KeyTasksRewrite(m', p, d[k := x], u, ks[1..]);
      SetSetSame(m, p, JObj(d[k := x]), JObj(MergeKeys(d[k := x], u, ks[1..])));
    }
  }

  /** Merging distinct properties one by one touches each once, with the value it had before. */
  lemma {:induction false} MergeKeysContents(d: map<string, Json>, u: map<string, Json>, ks: seq<string>)
    requires forall i :: 0 <= i < |ks| ==> ks[i] in u
    requires NoDuplicates(ks)
    ensures forall k :: k in MergeKeys(d, u, ks) <==> k in d || k in ks
    ensures forall k :: k in ks ==> MergeKeys(d, u, ks)[k] == MergeInto(u[k], Lookup(d, k))
    ensures forall k :: k in d && k !in ks ==> MergeKeys(d, u, ks)[k] == d[k]
    decreases |ks|
  {
    if ks != [] {
      var k0 := ks[0];
      var d' := d[k0 := MergeInto(u[k0], Lookup(d, k0))];
      var rest := ks[1..];
      assert NoDuplicates(rest) by {
        forall i, j | 0 <= i < j < |rest| ensures rest[i] != rest[j] {
          assert rest[i] == ks[i + 1] && rest[j] == ks[j + 1];
        }
      }
      MergeKeysContents(d', u, rest);
      assert k0 !in rest by {
        forall i | 0 <= i < |rest| ensures rest[i] != k0 {
          assert rest[i] == ks[i + 1];
        }
      }
      assert forall k :: k in ks <==> k == k0 || k in rest;
    }
  }

  /** Working off one frame's properties does what merging the frame at once does. */
  lemma ExpandFrame(m: Json, f: Frame, keys: seq<string>)
    requires ObjectAt(m, f.mergedRef)
    requires NoDuplicates(keys) && forall k :: k in f.userRef <==> k in keys
    ensures forall i :: 0 <= i < |keys| ==> keys[i] in f.userRef
    ensures Exec(m, FrameTask(f)) == ApplyAll(m, KeyTasks(f.mergedRef, f.userRef, keys))
  {
    var d := GetAt(m, f.mergedRef).value.fields;
    var u := f.userRef;
    KeyTasksRewrite(m, f.mergedRef, d, u, keys);
    MergeKeysContents(d, u, keys);
    var r := MergeFields(u, d);
    var mk := MergeKeys(d, u, keys);
    forall k | k in r
      ensures k in mk && mk[k] == r[k]
    {
      if k in u {
        assert k in keys;
        if k in d {
          assert r[k] == Merge(u[k], d[k]);
        }
      }
    }
    assert mk.Keys == r.Keys;
    assert mk == r;
    assert Merge(JObj(u), JObj(d)) == JObj(r);
  }

  /** Taking the top frame off the stack: its task comes first, the rest of the stack after it. */
  lemma PopStep(m: Json, stack: seq<Frame>, final: Json, todo: set<Path>)
    requires stack != []
    requires ApplyAll(m, StackTasks(stack)) == final
    requires forall i, r :: 0 <= i < |stack| && r in ObjectPaths(JObj(stack[i].userRef)) ==>
      stack[i].mergedRef + r in todo
    ensures ApplyAll(Exec(m, FrameTask(stack[|stack| - 1])), StackTasks(stack[..|stack| - 1])) == final
    ensures stack[|stack| - 1].mergedRef in todo
  {
    var top := stack[|stack| - 1];
    assert [] in ObjectPaths(JObj(top.userRef));
    assert top.mergedRef + [] == top.mergedRef;
  }

  /** After a pop, every task still pending lies in `todo` without the popped frame's position. */
  lemma FrameChildrenPending(frame: Frame, keys: seq<string>, below: seq<Frame>, todo: set<Path>)
    requires forall i :: 0 <= i < |keys| ==> keys[i] in frame.userRef
    requires forall r :: r in ObjectPaths(JObj(frame.userRef)) ==> frame.mergedRef + r in todo
    requires forall j :: 0 <= j < |below| ==> Incomparable(below[j].mergedRef, frame.mergedRef)
    requires forall j, r :: 0 <= j < |below| && r in ObjectPaths(JObj(below[j].userRef)) ==>
      below[j].mergedRef + r in todo
    ensures forall j, r :: 0 <= j < |below| && r in ObjectPaths(JObj(below[j].userRef)) ==>
      below[j].mergedRef + r in todo - {frame.mergedRef}
    ensures forall l, r :: 0 <= l < |keys| && r in ObjectPaths(frame.userRef[keys[l]]) ==>
      frame.mergedRef + [keys[l]] + r in todo - {frame.mergedRef}
    ensures forall j, l :: 0 <= j < |below| && 0 <= l < |keys| ==>
      Incomparable(below[j].mergedRef, frame.mergedRef + [keys[l]])
  {
    var p := frame.mergedRef;
    var u := frame.userRef;
    forall j, r | 0 <= j < |below| && r in ObjectPaths(JObj(below[j].userRef))
      ensures below[j].mergedRef + r != p
    {
      var q := below[j].mergedRef;
      assert (q + r)[..|q|] == q;
    }
    forall l, r | 0 <= l < |keys| && r in ObjectPaths(u[keys[l]])
      ensures p + [keys[l]] + r in todo - {p}
    {
      assert [keys[l]] + r in ObjectPaths(JObj(u));
      assert p + ([keys[l]] + r) == p + [keys[l]] + r;
    }
    forall j, l | 0 <= j < |below| && 0 <= l < |keys|
      ensures Incomparable(below[j].mergedRef, p + [keys[l]])
    {
      IncomparableExtend(p, below[j].mergedRef, keys[l]);
    }
  }

  lemma KeyTasksStep(p: Path, u: map<string, Json>, keys: seq<string>, i: nat)
    requires i < |keys| && forall l :: 0 <= l < |keys| ==> keys[l] in u
    ensures KeyTasks(p, u, keys[i..]) == [Task(p + [keys[i]], u[keys[i]])] + KeyTasks(p, u, keys[i + 1..])
  {
    assert keys[i..][1..] == keys[i + 1..];
  }

  lemma SiblingsIncomparable(p: Path, a: string, b: string)
    requires a != b
    ensures Incomparable(p + [a], p + [b])
  {
    assert (p + [a])[|p|] != (p + [b])[|p|];
  }

  /** A property whose both sides are objects is pushed: its task moves behind the frame's other properties. */
  lemma PushStep(m: Json, stack: seq<Frame>, p: Path, u: map<string, Json>, keys: seq<string>, i: nat)
    requires i < |keys| && NoDuplicates(keys) && forall l :: 0 <= l < |keys| ==> keys[l] in u
    requires u[keys[i]].JObj?
    ensures var t := Task(p + [keys[i]], u[keys[i]]);
      ApplyAll(m, [t] + KeyTasks(p, u, keys[i + 1..]) + StackTasks(stack))
        == ApplyAll(m, KeyTasks(p, u, keys[i + 1..]) + StackTasks(stack + [Frame(u[keys[i]].fields, p + [keys[i]])]))
  {
    var t := Task(p + [keys[i]], u[keys[i]]);
    var rs := KeyTasks(p, u, keys[i + 1..]);
    LaterKeysOutside(t, rs, p, u, keys, i);
    MoveBehind(m, t, rs, StackTasks(stack));
    var frame := Frame(u[keys[i]].fields, p + [keys[i]]);
    assert FrameTask(frame) == t;
    StackTasksPush(stack, frame);
    TasksAssoc(rs, [t], StackTasks(stack));
  }

  /** The task of property `keys[i]` lies outside those of the properties after it. */
  lemma LaterKeysOutside(t: Task, rs: seq<Task>, p: Path, u: map<string, Json>, keys: seq<string>, i: nat)
    requires i < |keys| && NoDuplicates(keys) && forall l :: 0 <= l < |keys| ==> keys[l] in u
    requires t.path == p + [keys[i]] && rs == KeyTasks(p, u, keys[i + 1..])
    ensures forall l :: 0 <= l < |rs| ==> Incomparable(t.path, rs[l].path)
  {
    KeyTaskPaths(p, u, keys[i + 1..]);
    forall l | 0 <= l < |rs|
      ensures Incomparable(t.path, rs[l].path)
    {
      assert rs[l].path == p + [keys[i + 1..][l]];
      SiblingsIncomparable(p, keys[i], keys[i + 1 + l]);
    }
  }

  lemma StackTasksPush(stack: seq<Frame>, frame: Frame)
    ensures StackTasks(stack + [frame]) == [FrameTask(frame)] + StackTasks(stack)
  {
    var stack' := stack + [frame];
    assert stack'[..|stack'| - 1] == stack;
  }

  lemma TasksAssoc(a: seq<Task>, b: seq<Task>, c: seq<Task>)
    ensures a + b + c == a + (b + c)
  {
  }

  lemma {:induction false} KeyTaskPaths(p: Path, u: map<string, Json>, ks: seq<string>)
    requires forall l :: 0 <= l < |ks| ==> ks[l] in u
    ensures |KeyTasks(p, u, ks)| == |ks|
    ensures forall l :: 0 <= l < |ks| ==> KeyTasks(p, u, ks)[l] == Task(p + [ks[l]], u[ks[l]])
    decreases |ks|
  {
    if ks != [] {
      KeyTaskPaths(p, u, ks[1..]);
    }
  }

  /** Any other property is assigned at once, which is what its pending merge would do. */
  lemma SetStep(m: Json, stack: seq<Frame>, p: Path, u: map<string, Json>, keys: seq<string>, i: nat)
    requires i < |keys| && forall l :: 0 <= l < |keys| ==> keys[l] in u
    requires var mv := GetAt(m, p + [keys[i]]);
      !(u[keys[i]].JObj? && mv.Some? && mv.value.JObj?)
    ensures var t := Task(p + [keys[i]], u[keys[i]]);
      ApplyAll(m, [t] + KeyTasks(p, u, keys[i + 1..]) + StackTasks(stack))
        == ApplyAll(SetAt(m, p + [keys[i]], u[keys[i]]), KeyTasks(p, u, keys[i + 1..]) + StackTasks(stack))
  {
    var t := Task(p + [keys[i]], u[keys[i]]);
    var rest := KeyTasks(p, u, keys[i + 1..]) + StackTasks(stack);
    assert ([t] + KeyTasks(p, u, keys[i + 1..]) + StackTasks(stack)) == [t] + rest;
    assert ([t] + rest)[1..] == rest;
    assert Exec(m, t) == SetAt(m, p + [keys[i]], u[keys[i]]);
  }
}
