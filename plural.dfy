/** `defaultProvider`: choosing the plural form of a dictionary entry for a
    count. */
module Plural {
  import opened JsValues

  /** A plural-form provider: the dictionary entry and the count in, the chosen
      form (or a falsy value) out. */
  type Pluralizer = (Option<Value>, int) -> Option<Value>

  /** `items[n]` on an array: undefined outside the array. */
  function At(items: seq<Value>, n: int): Option<Value> {
    if 0 <= n < |items| then Some(items[n]) else None
  }

  /** `form` is one of the forms stored directly in `dict`. */
  predicate FormOf(form: Value, dict: Value) {
    match dict
    case Arr(items) => form in items
    case Obj(m) => form in m.Values
    case Str(_) => false
  }

  /** `defaultProvider(dict, plural)`.  Nothing is chosen unless a count is
      given and the entry is an object; the chosen form is one of the entry's
      own forms or the entry itself; an object entry always yields a form. */
  function DefaultProvider(dict: Option<Value>, plural: Option<int>): (form: Option<Value>)
    ensures form.Some? ==> plural.Some? && dict.Some? && IsObject(dict.value)
    ensures form.Some? ==> form.value == dict.value || FormOf(form.value, dict.value)
    ensures plural.Some? && dict.Some? && dict.value.Obj? ==> form.Some?
  {
    if plural.None? || dict.None? || !IsObject(dict.value) then None
    else
      var n := plural.value;
      match dict.value
      case Arr(items) => Or(At(items, n), At(items, 0))
      case Obj(m) =>
        if n == 0 && "none" in m then Some(m["none"])
        else if n == 1 && Or(Get(m, "one"), Get(m, "singular")).Some? then Or(Get(m, "one"), Get(m, "singular"))
        else Or(Or(Or(Or(Get(m, "some"), Get(m, "many")), Get(m, "plural")), Get(m, "other")), dict)
  }

  /** An array entry yields the form at the count when that form is truthy, and
      otherwise its first form: an out-of-range count and an empty form at the
      count are treated alike. */
  lemma ArrayForms(items: seq<Value>, n: int)
    ensures DefaultProvider(Some(Arr(items)), Some(n)) ==
      if 0 <= n < |items| && IsTruthy(items[n]) then Some(items[n])
      else if items != [] then Some(items[0])
      else None
  {
  }

  /** The first of `keys` whose entry in `m` is truthy, or `otherwise` when
      there is none. */
  function FirstTruthy(m: Dict, keys: seq<string>, otherwise: Value): (v: Value)
    ensures v == otherwise || exists i :: 0 <= i < |keys| && Get(m, keys[i]) == Some(v) && IsTruthy(v)
  {
    if keys == [] then otherwise
    else if Truthy(Get(m, keys[0])) then m[keys[0]]
    else
      var v := FirstTruthy(m, keys[1..], otherwise);
      assert v != otherwise ==> exists i :: 0 <= i < |keys| && Get(m, keys[i]) == Some(v) && IsTruthy(v) by {
        if v != otherwise {
          var i :| 0 <= i < |keys[1..]| && Get(m, keys[1..][i]) == Some(v) && IsTruthy(v);
          assert keys[i + 1] == keys[1..][i];
        }
      }
      v
  }

  /** An object entry, for every count: `none` for 0 when it is present; for
      1, a truthy `one`, else a present `singular`; otherwise the first truthy
      of `some`, `many`, `plural` and `other`, else the object itself. */
  lemma ObjectForms(m: Dict, n: int)
    ensures n == 0 && "none" in m ==> DefaultProvider(Some(Obj(m)), Some(n)) == Some(m["none"])
    ensures n == 1 && Truthy(Get(m, "one")) ==> DefaultProvider(Some(Obj(m)), Some(n)) == Some(m["one"])
    ensures n == 1 && !Truthy(Get(m, "one")) && "singular" in m ==>
      DefaultProvider(Some(Obj(m)), Some(n)) == Some(m["singular"])
    ensures !(n == 0 && "none" in m) && !(n == 1 && (Truthy(Get(m, "one")) || "singular" in m)) ==>
      DefaultProvider(Some(Obj(m)), Some(n)) == Some(FirstTruthy(m, ["some", "many", "plural", "other"], Obj(m)))
  {
    GeneralForm(m);
  }

  /** The chain `some || many || plural || other || dict` picks the first
      truthy of those keys. */
  lemma GeneralForm(m: Dict)
    ensures Some(FirstTruthy(m, ["some", "many", "plural", "other"], Obj(m)))
         == Or(Or(Or(Or(Get(m, "some"), Get(m, "many")), Get(m, "plural")), Get(m, "other")), Some(Obj(m)))
  {
    var o := Obj(m);
    var k4: seq<string> := ["other"];
    var k3 := ["plural"] + k4;
    var k2 := ["many"] + k3;
    var k1 := ["some"] + k2;
    assert Some(FirstTruthy(m, k4, o)) == Or(Get(m, "other"), Some(o)) by {
      assert k4[0] == "other" && k4[1..] == [];
    }
    assert Some(FirstTruthy(m, k3, o)) == Or(Get(m, "plural"), Some(FirstTruthy(m, k4, o))) by {
      assert k3[0] == "plural" && k3[1..] == k4;
    }
    assert Some(FirstTruthy(m, k2, o)) == Or(Get(m, "many"), Some(FirstTruthy(m, k3, o))) by {
      assert k2[0] == "many" && k2[1..] == k3;
    }
    assert Some(FirstTruthy(m, k1, o)) == Or(Get(m, "some"), Some(FirstTruthy(m, k2, o))) by {
      assert k1[0] == "some" && k1[1..] == k2;
    }
    assert k1 == ["some", "many", "plural", "other"];
  }

  /** Category keys, for an entry `{none, one, other}`. */
  lemma CategoryExamples()
    ensures var dict := Some(Obj(map["none" := Str("zero"), "one" := Str("singular"), "other" := Str("many")]));
      && DefaultProvider(dict, Some(0)) == Some(Str("zero"))
      && DefaultProvider(dict, Some(1)) == Some(Str("singular"))
      && DefaultProvider(dict, Some(5)) == Some(Str("many"))
  {
  }

  /** Index-addressed forms, with index 0 as the fallback. */
  lemma ArrayExamples()
    ensures DefaultProvider(Some(Arr([Str("zero"), Str("one"), Str("many")])), Some(2)) == Some(Str("many"))
    ensures DefaultProvider(Some(Arr([Str("zero"), Str("one")])), Some(5)) == Some(Str("zero"))
  {
  }

  /** `singular` stands in for `one` when `one` is absent (even when it is the
      empty string), and an object with no category key for the count is its
      own form. */
  lemma SingularAndPassThrough(m: map<string, Value>, s: Value)
    requires "one" !in m
    requires "some" !in m && "many" !in m && "plural" !in m && "other" !in m
    ensures DefaultProvider(Some(Obj(m["singular" := s])), Some(1)) == Some(s)
    ensures DefaultProvider(Some(Obj(m)), Some(7)) == Some(Obj(m))
  {
  }
}
