/** `assign` and `deepAssign`: copying properties, and merging a definition
    into the dictionary inherited from enclosing providers. */
module Merge {
  import opened JsValues
  import opened Paths

  /** `assign(obj, props)`: every property of `props` copied onto `obj`.  The
      callers always pass a freshly built `obj`, so returning the updated map
      is the same as updating it in place. */
  method Assign(obj: Dict, props: Dict) returns (r: Dict)
    ensures r.Keys == obj.Keys + props.Keys
    ensures forall k :: k in props ==> r[k] == props[k]
    ensures forall k :: k in obj && k !in props ==> r[k] == obj[k]
  {
    r := obj;
    var todo := props.Keys;
    while todo != {}
      invariant todo <= props.Keys
      invariant r.Keys == obj.Keys + (props.Keys - todo)
      invariant forall k :: k in props && k !in todo ==> r[k] == props[k]
      invariant forall k :: k in obj && (k !in props || k in todo) ==> r[k] == obj[k]
      decreases todo
    {
      var i :| i in todo;
      r := r[i := props[i]];
      todo := todo - {i};
    }
  }

  /** Both entries are objects, so `deepAssign` descends into them. */
  predicate Nested(t: Dict, s: Dict, k: string) {
    k in t && k in s && IsObject(t[k]) && IsObject(s[k])
  }

  /** The result of `deepAssign(target, source)`: every property of `target`,
      and for every own property of `source` either the recursive merge (both
      sides objects) or `target[k] || source[k]`. */
  function Merge(target: Value, source: Value): (out: Dict)
    requires IsObject(target) && IsObject(source)
    ensures out.Keys == Record(target).Keys + Record(source).Keys
    ensures forall k :: Nested(Record(target), Record(source), k) ==>
              out[k].Obj? && out[k].entries.Keys == Record(Record(target)[k]).Keys + Record(Record(source)[k]).Keys
    decreases source, 1
  {
    map k | k in Record(target).Keys + Record(source).Keys :: MergedEntry(target, source, k)
  }

  /** `out[k]` of `deepAssign(target, source)`. */
  function MergedEntry(target: Value, source: Value, k: string): Value
    requires IsObject(target) && IsObject(source)
    requires k in Record(target) || k in Record(source)
    decreases source, 0
  {
    var t := Record(target);
    var s := Record(source);
    if Nested(t, s, k) then Obj(Merge(t[k], s[k]))
    else if k in t && (k !in s || IsTruthy(t[k])) then t[k]
    else s[k]
  }

  /** Entry by entry: keys only in `target` are kept, keys only in `source` are
      added, a truthy target entry that is not merged wins over the source's
      and an empty target string gives way to the source's entry. */
  lemma MergeEntries(target: Value, source: Value)
    requires IsObject(target) && IsObject(source)
    ensures var t, s, out := Record(target), Record(source), Merge(target, source);
      && (forall k :: k in t && k !in s ==> out[k] == t[k])
      && (forall k :: k !in t && k in s ==> out[k] == s[k])
      && (forall k :: k in t && IsTruthy(t[k]) && !Nested(t, s, k) ==> out[k] == t[k])
      && (forall k :: k in t && k in s && !IsTruthy(t[k]) ==> out[k] == s[k])
  {
    forall k | k in Record(target) || k in Record(source) {
      MergeAt(target, source, k);
    }
  }

  /** The merged entry for one own key of the source. */
  lemma MergeAt(target: Value, source: Value, k: string)
    requires IsObject(target) && IsObject(source)
    requires k in Record(target) || k in Record(source)
    ensures var t, s := Record(target), Record(source);
      Merge(target, source)[k] ==
        if Nested(t, s, k) then Obj(Merge(t[k], s[k]))
        else if k in t && (k !in s || IsTruthy(t[k])) then t[k]
        else s[k]
  {
  }

  /** `deepAssign(target, source)`: `out` starts as a copy of `target` and is
      filled key by key from the own properties of `source`. */
  method DeepAssign(target: Value, source: Value) returns (out: Dict)
    requires IsObject(target) && IsObject(source)
    ensures out == Merge(target, source)
    decreases source, 1
  {
    var t := Record(target);
    var s := Record(source);
    out := Assign(map[], t);
    var todo := s.Keys;
    while todo != {}
      invariant todo <= s.Keys
      invariant out.Keys == t.Keys + (s.Keys - todo)
      invariant forall k :: k in out && k in s && k !in todo ==> out[k] == MergedEntry(target, source, k)
      invariant forall k :: k in out && (k !in s || k in todo) ==> out[k] == t[k]
      decreases todo
    {
      var i :| i in todo;
      var entry := AssignEntry(target, source, i);
      KeysStep(out.Keys, t.Keys, s.Keys, todo, i);
      out := out[i := entry];
      todo := todo - {i};
    }
    assert forall k :: k in out ==> out[k] == MergedEntry(target, source, k) by {
      forall k | k in out && k !in s
        ensures out[k] == MergedEntry(target, source, k)
      {
      }
    }
    SameEntries(out, Merge(target, source));
  }

  /** The body of the loop of `deepAssign` for the own property `i` of
      `source`: a recursive merge when both sides are objects, otherwise
      `target[i] || source[i]`. */
  method AssignEntry(target: Value, source: Value, i: string) returns (entry: Value)
    requires IsObject(target) && IsObject(source)
    requires i in Record(source)
    ensures entry == MergedEntry(target, source, i)
    decreases source, 0
  {
    var t := Record(target);
    var s := Record(source);
    if Nested(t, s, i) {
      var inner := DeepAssign(t[i], s[i]);
      entry := Obj(inner);
    } else if i in t && IsTruthy(t[i]) {
      entry := t[i];
    } else {
      entry := s[i];
    }
  }

  lemma KeysStep(done: set<string>, targetKeys: set<string>, sourceKeys: set<string>, todo: set<string>, i: string)
    requires i in todo && todo <= sourceKeys
    requires done == targetKeys + (sourceKeys - todo)
    ensures done + {i} == targetKeys + (sourceKeys - (todo - {i}))
  {
  }

  lemma SameEntries(a: Dict, b: Dict)
    requires a.Keys == b.Keys
    requires forall k :: k in a ==> a[k] == b[k]
    ensures a == b
  {
  }

  /** A truthy target entry wins, and a key only the source has is added:
      merging `{a: 'theirs', b: 'theirs'}` into `{a: 'mine'}` gives
      `{a: 'mine', b: 'theirs'}`. */
  lemma MergeExample()
    ensures Merge(Obj(map["a" := Str("mine")]), Obj(map["a" := Str("theirs"), "b" := Str("theirs")]))
         == map["a" := Str("mine"), "b" := Str("theirs")]
  {
    var target := Obj(map["a" := Str("mine")]);
    var source := Obj(map["a" := Str("theirs"), "b" := Str("theirs")]);
    MergeAt(target, source, "a");
    MergeAt(target, source, "b");
    SameEntries(Merge(target, source), map["a" := Str("mine"), "b" := Str("theirs")]);
  }

  /** Ancestor entries win: every non-empty string the target holds at some
      path is still there after the merge, at every depth. */
  lemma {:induction false} MergeKeepsTargetStrings(t: Dict, source: Value, path: seq<string>, text: string)
    requires IsObject(source)
    requires text != ""
    requires Lookup(Obj(t), path) == Some(Str(text))
    ensures Lookup(Obj(Merge(Obj(t), source)), path) == Some(Str(text))
    decreases path
  {
    var out := Merge(Obj(t), source);
    var s := Record(source);
    var k := path[0];
    assert k in t;
    MergeAt(Obj(t), source, k);
    if path[1..] == [] {
      assert t[k] == Str(text);
      assert out[k] == t[k];
    } else {
      assert t[k].Obj?;
      if Nested(t, s, k) {
        MergeKeepsTargetStrings(t[k].entries, s[k], path[1..], text);
        assert out[k] == Obj(Merge(t[k], s[k]));
      } else {
        assert out[k] == t[k];
      }
    }
  }

  /** The walk along `path` stays inside plain objects until a segment is
      missing: the value at `path` is undefined, not blocked by a leaf. */
  predicate Undefined(v: Value, path: seq<string>)
    decreases path
  {
    path != [] && v.Obj? && (path[0] !in v.entries || Undefined(v.entries[path[0]], path[1..]))
  }

  /** The definition fills the gaps: where the target has nothing at a path,
      the merge holds whatever the source has there. */
  lemma {:induction false} MergeFillsUndefined(t: Dict, s: Dict, path: seq<string>, w: Value)
    requires Undefined(Obj(t), path)
    requires Lookup(Obj(s), path) == Some(w)
    ensures Lookup(Obj(Merge(Obj(t), Obj(s))), path) == Some(w)
    decreases path
  {
    var out := Merge(Obj(t), Obj(s));
    var k := path[0];
    assert k in s;
    MergeAt(Obj(t), Obj(s), k);
    if k !in t {
      assert out[k] == s[k];
    } else {
      assert Undefined(t[k], path[1..]);
      assert t[k].Obj? && s[k].Obj?;
      MergeFillsUndefined(t[k].entries, s[k].entries, path[1..], w);
      assert out[k] == Obj(Merge(t[k], s[k]));
    }
  }
}
