/** Dot-path lookup into nested objects: the walk that resolves a translation
    key in the dictionary and a `{{field.path}}` in the template fields. */
module Paths {
  import opened JsValues
  import opened Strings

  /** The value reached by following `path` from `v`, one property per segment;
      `None` as soon as a segment is missing or the walk meets a value that is
      not a plain object. */
  function Lookup(v: Value, path: seq<string>): Option<Value>
    decreases path
  {
    if path == [] then Some(v)
    else if v.Obj? && path[0] in v.entries then Lookup(v.entries[path[0]], path[1..])
    else None
  }

  /** The dictionary entry for a dotted key such as `weather.foo`. */
  function Delve(dictionary: Dict, key: string): Option<Value> {
    Lookup(Obj(dictionary), Split(key, '.'))
  }

  /** A lookup along `p + q` is a lookup along `q` from where `p` ends. */
  lemma {:induction false} LookupAppend(v: Value, p: seq<string>, q: seq<string>)
    ensures Lookup(v, p + q) == match Lookup(v, p) case None => None case Some(w) => Lookup(w, q)
    decreases p
  {
    if p == [] {
      assert p + q == q;
    } else {
      assert (p + q)[0] == p[0] && (p + q)[1..] == p[1..] + q;
      if v.Obj? && p[0] in v.entries {
        LookupAppend(v.entries[p[0]], p[1..], q);
      }
    }
  }

  /** Looking up `scope.key` is looking up `key` inside the entry for `scope`:
      a scope selects a sub-dictionary. */
  lemma ScopedDelve(dictionary: Dict, scope: string, key: string)
    ensures Delve(dictionary, scope + "." + key) ==
      match Delve(dictionary, scope) case None => None case Some(w) => Lookup(w, Split(key, '.'))
  {
    SplitConcat(scope, key, '.');
    assert scope + "." + key == scope + ['.'] + key;
    LookupAppend(Obj(dictionary), Split(scope, '.'), Split(key, '.'));
  }

  /** A key whose first segment is not in the dictionary resolves to nothing. */
  lemma MissingHead(dictionary: Dict, key: string)
    requires Split(key, '.')[0] !in dictionary
    ensures Delve(dictionary, key) == None
  {
  }

  /** A key without dots is a single property access. */
  lemma PlainKey(dictionary: Dict, key: string)
    requires '.' !in key
    ensures Delve(dictionary, key) == Get(dictionary, key)
  {
    SplitNoSeparator(key, '.');
    assert [key][1..] == [];
    if key in dictionary {
      assert Lookup(Obj(dictionary), [key]) == Lookup(dictionary[key], []);
    }
  }
}
