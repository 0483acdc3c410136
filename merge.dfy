/** The store's `deepMerge(target, source)`: a copy of the target's own
    properties with each own property of the source written over it,
    recursing where both sides hold an object (an array or a plain object). */
module Merging {
  import opened Wrappers
  import opened Strings
  import opened JsValues

  /** A property value of `v` that is an object is smaller than `v`. */
  lemma {:induction false} PropSmaller(v: Value, k: string)
    requires k in OwnProps(v) && IsObject(OwnProps(v)[k])
    ensures OwnProps(v)[k] < v
  {
    if v.Arr? {
      var i :| 0 <= i < |v.items| && k == NatToString(i);
      assert OwnProps(v)[k] == v.items[i];
    }
  }

  /** Whether the merge recurses at `k`: the source's value is an object, and
      so is the target and its value at `k`. */
  predicate Recurses(target: Value, source: Value, k: string) {
    k in OwnProps(source) && IsObject(OwnProps(source)[k]) &&
    IsObject(target) && k in OwnProps(target) && IsObject(OwnProps(target)[k])
  }

  /** The value the merge writes at a key of the source. */
  function MergedAt(target: Value, source: Value, k: string): Value
    requires k in OwnProps(source)
    decreases source, 0
  {
    if Recurses(target, source, k) then
      PropSmaller(source, k);
      Merge(OwnProps(target)[k], OwnProps(source)[k])
    else OwnProps(source)[k]
  }

  /** Every value the merge writes, by source key. */
  function Writes(target: Value, source: Value): (w: map<string, Value>)
    decreases source, 1
    ensures w.Keys == OwnProps(source).Keys
  {
    map k | k in OwnProps(source) :: MergedAt(target, source, k)
  }

  /** The merged object, for a merge that does not throw. */
  function Merge(target: Value, source: Value): (r: Value)
    decreases source, 2
    ensures r.Obj?
  {
    Obj(OwnProps(target) + Writes(target, source))
  }

  /** `key in target` throws a `TypeError` when the target is not an object;
      it is evaluated only for a source value that is an object. Deeper
      levels always have an object as their target. */
  predicate Throws(target: Value, source: Value) {
    !IsObject(target) && exists k :: k in OwnProps(source) && IsObject(OwnProps(source)[k])
  }

  /** How `deepMerge(target, source)` ends: the merged object, or `None` for
      the `TypeError`. */
  function DeepMergeOf(target: Value, source: Value): Option<Value> {
    if Throws(target, source) then None else Some(Merge(target, source))
  }

  /** Keeping one more key of `m` adds its entry. */
  lemma {:induction false} UnremoveStep<K, V>(m: map<K, V>, keys: set<K>, key: K)
    requires key in m
    ensures m - (keys - {key}) == (m - keys)[key := m[key]]
  {
  }

  lemma {:induction false} RemoveNothing<K, V>(m: map<K, V>)
    ensures m - {} == m
  {
  }

  lemma {:induction false} RemoveAll<K, V>(m: map<K, V>, keys: set<K>)
    requires m.Keys <= keys
    ensures m - keys == map[]
  {
  }

  lemma {:induction false} UnionEmpty<K, V>(m: map<K, V>)
    ensures m + map[] == m
  {
  }

  lemma {:induction false} UpdateUnion<K, V>(a: map<K, V>, b: map<K, V>, k: K, v: V)
    ensures (a + b)[k := v] == a + b[k := v]
  {
  }

  /** `deepMerge(target, source)`: copy the target, then walk the source's
      own properties. */
  method DeepMerge(target: Value, source: Value) returns (output: Option<Value>)
    ensures output == DeepMergeOf(target, source)
    decreases source, 3
  {
    var out := WalkSource(target, source);
    if out.None? {
      return None;
    }
    WalkedAll(target, source, out.value);
    output := Some(Obj(out.value));
  }

  /** The walk over the source's own properties, writing into a copy of the
      target's; `None` when a turn throws. */
  method WalkSource(target: Value, source: Value) returns (output: Option<map<string, Value>>)
    ensures output.None? ==> Throws(target, source)
    ensures output.Some? ==> Walked(target, source, {}, output.value)
    decreases source, 2
  {
    var t, s := OwnProps(target), OwnProps(source);
    var out := t;
    var keys := s.Keys;
    WalkStart(target, source);
    while keys != {}
      invariant Walked(target, source, keys, out)
      decreases keys
    {
      var threw;
      keys, out, threw := WalkStep(target, source, keys, out);
      if threw {
        return None;
      }
    }
    output := Some(out);
  }

  /** The state of the walk with `keys` still to visit: `out` holds the
      target's properties with the visited keys written, and no visited key
      would have thrown. */
  predicate Walked(target: Value, source: Value, keys: set<string>, out: map<string, Value>) {
    keys <= OwnProps(source).Keys &&
    out == OwnProps(target) + (Writes(target, source) - keys) &&
    (!IsObject(target) ==> ObjectFreeBut(source, keys))
  }

  /** Before the walk every key is still to visit and `out` is the copy. */
  lemma {:induction false} WalkStart(target: Value, source: Value)
    ensures Walked(target, source, OwnProps(source).Keys, OwnProps(target))
  {
    var w := Writes(target, source);
    RemoveAll(w, OwnProps(source).Keys);
    UnionEmpty(OwnProps(target));
  }

  /** One turn of the walk: visit some key still to visit. */
  method WalkStep(target: Value, source: Value, keys: set<string>, out: map<string, Value>)
    returns (keys': set<string>, out': map<string, Value>, threw: bool)
    requires keys != {} && Walked(target, source, keys, out)
    ensures threw ==> Throws(target, source)
    ensures !threw ==> keys' < keys && Walked(target, source, keys', out')
    decreases source, 1
  {
    var key :| key in keys;
    var written := MergeKey(target, source, key);
    if written.None? {
      return keys, out, true;
    }
    WalkedStep(target, source, keys, out, key);
    keys', out', threw := keys - {key}, out[key := written.value], false;
  }

  /** Visiting a key that does not throw writes its merged value. */
  lemma {:induction false} WalkedStep(target: Value, source: Value, keys: set<string>, out: map<string, Value>, key: string)
    requires Walked(target, source, keys, out) && key in keys
    requires !(IsObject(OwnProps(source)[key]) && !IsObject(target))
    ensures Walked(target, source, keys - {key}, out[key := MergedAt(target, source, key)])
  {
    var w := Writes(target, source);
    UnremoveStep(w, keys, key);
    UpdateUnion(OwnProps(target), w - keys, key, w[key]);
  }

  /** No source key outside `keys` holds an object. */
  predicate ObjectFreeBut(source: Value, keys: set<string>) {
    forall k :: k in OwnProps(source) && k !in keys ==> !IsObject(OwnProps(source)[k])
  }

  /** A walk that visited every key did not throw, and wrote every key. */
  lemma {:induction false} WalkedAll(target: Value, source: Value, out: map<string, Value>)
    requires Walked(target, source, {}, out)
    ensures !Throws(target, source)
    ensures Obj(out) == Merge(target, source)
  {
    RemoveNothing(Writes(target, source));
  }

  /** One turn of the walk: `None` for the `TypeError` of `key in target`,
      otherwise the value written at `key`. */
  method MergeKey(target: Value, source: Value, key: string) returns (written: Option<Value>)
    requires key in OwnProps(source)
    ensures written.None? <==> IsObject(OwnProps(source)[key]) && !IsObject(target)
    ensures written.None? ==> Throws(target, source)
    ensures written.Some? ==> written.value == MergedAt(target, source, key)
    decreases source, 0
  {
    var t, value := OwnProps(target), OwnProps(source)[key];
    if IsObject(value) && !IsObject(target) {
      return None;
    }
    if IsObject(value) && key in t && IsObject(t[key]) {
      PropSmaller(source, key);
      var sub := DeepMerge(t[key], value);
      written := Some(sub.value);
    } else {
      written := Some(value);
    }
  }

  // ---------------------------------------------------------------------
  // What the merge does
  // ---------------------------------------------------------------------

  /** Where each merged value comes from. */
  lemma {:induction false} MergeAt(target: Value, source: Value, k: string)
    ensures k in Merge(target, source).props <==> k in OwnProps(target) || k in OwnProps(source)
    ensures k in OwnProps(source) ==> Merge(target, source).props[k] == MergedAt(target, source, k)
    ensures k !in OwnProps(source) && k in OwnProps(target) ==> Merge(target, source).props[k] == OwnProps(target)[k]
  {
  }

  /** The merged keys are the target's and the source's; a key only in the
      target keeps its value; where both sides hold objects the merge
      recurses; everywhere else the source's value wins. */
  lemma {:induction false} MergeProps(target: Value, source: Value, k: string)
    ensures k in Merge(target, source).props <==> k in OwnProps(target) || k in OwnProps(source)
    ensures k in OwnProps(target) && k !in OwnProps(source) ==> Merge(target, source).props[k] == OwnProps(target)[k]
    ensures k in OwnProps(source) && !Recurses(target, source, k) ==> Merge(target, source).props[k] == OwnProps(source)[k]
    ensures Recurses(target, source, k) ==>
      OwnProps(source)[k] < source &&
      Merge(target, source).props[k] == Merge(OwnProps(target)[k], OwnProps(source)[k])
  {
    MergeAt(target, source, k);
    if Recurses(target, source, k) {
      PropSmaller(source, k);
    }
  }

  /** A source whose values are not objects is merged shallowly: the merge is
      the spread `{...target, ...source}`. */
  lemma {:induction false} MergeShallow(target: Value, source: Value)
    requires forall k :: k in OwnProps(source) ==> !IsObject(OwnProps(source)[k])
    ensures Merge(target, source) == Spread(target, source)
  {
    assert Writes(target, source) == OwnProps(source);
  }

  /** Merging nothing into an object copies its own properties. */
  lemma {:induction false} MergeEmptySource(target: Value)
    ensures Merge(target, Obj(map[])) == Obj(OwnProps(target))
  {
    var w := Writes(target, Obj(map[]));
    RemoveAll(w, w.Keys);
    RemoveNothing(w);
    UnionEmpty(OwnProps(target));
  }

  /** A tree of plain objects: objects all the way down, with no arrays. */
  predicate PlainTree(v: Value) {
    match v
    case Arr(_) => false
    case Obj(props) => forall k :: k in props ==> PlainTree(props[k])
    case _ => true
  }

  /** Merging a tree of plain objects into itself gives it back. */
  lemma {:induction false} MergeSelf(v: Value)
    requires v.Obj? && PlainTree(v)
    ensures Merge(v, v) == v
  {
    forall k | k in v.props
      ensures MergedAt(v, v, k) == v.props[k]
    {
      if Recurses(v, v, k) {
        var c := v.props[k];
        assert c.Obj? && PlainTree(c);
        MergeSelf(c);
      }
    }
    assert Writes(v, v) == v.props;
  }

  /** A map with one key is the display of its entry. */
  lemma {:induction false} OneEntry(m: map<string, Value>, k: string)
    requires m.Keys == {k}
    ensures m == map[k := m[k]]
  {
  }

  /** A map with two keys is the display of its two entries. */
  lemma {:induction false} TwoEntries(m: map<string, Value>, k1: string, k2: string)
    requires m.Keys == {k1, k2}
    ensures m == map[k1 := m[k1], k2 := m[k2]]
  {
  }

  /** A nested section is merged field by field: merging `{a: {y: 3}}` into
      `{a: {x: 1, y: 2}}` gives `{a: {x: 1, y: 3}}`, where a shallow spread
      would have lost `x`. */
  lemma {:induction false} MergeNestedExample()
    ensures Merge(Obj(map["a" := Obj(map["x" := Num(1.0), "y" := Num(2.0)])]),
                  Obj(map["a" := Obj(map["y" := Num(3.0)])])) ==
      Obj(map["a" := Obj(map["x" := Num(1.0), "y" := Num(3.0)])])
  {
    var inner, innerSrc := Obj(map["x" := Num(1.0), "y" := Num(2.0)]), Obj(map["y" := Num(3.0)]);
    var t, s := Obj(map["a" := inner]), Obj(map["a" := innerSrc]);
    assert OwnProps(inner) == inner.props && OwnProps(innerSrc) == innerSrc.props;
    assert OwnProps(t) == t.props && OwnProps(s) == s.props;
    var r1 := Merge(inner, innerSrc);
    assert r1.props == inner.props + Writes(inner, innerSrc);
    MergeAt(inner, innerSrc, "x");
    MergeAt(inner, innerSrc, "y");
    TwoEntries(r1.props, "x", "y");
    var r := Merge(t, s);
    assert r.props == t.props + Writes(t, s);
    MergeAt(t, s, "a");
    assert Recurses(t, s, "a");
    OneEntry(r.props, "a");
  }
}
