/** `template` and `replacer`: filling `{{field.path}}` placeholders from a
    fields object.  The fields travel as a parameter through every recursive
    call, in place of the module-level `currentFields`; `fuel` bounds how deep
    a field may refer to further placeholders, standing for the call stack. */
module Template {
  import opened JsValues
  import opened Strings
  import opened Paths

  /** A character of `[\w.-]`. */
  predicate IsNameChar(c: char) {
    ('a' <= c <= 'z') || ('A' <= c <= 'Z') || ('0' <= c <= '9') || c == '_' || c == '.' || c == '-'
  }

  /** Length of the run of name characters at the start of `s`. */
  function NameRun(s: string): (n: nat)
    ensures n <= |s|
    ensures forall i :: 0 <= i < n ==> IsNameChar(s[i])
    ensures n < |s| ==> !IsNameChar(s[n])
  {
    if s != [] && IsNameChar(s[0]) then 1 + NameRun(s[1..]) else 0
  }

  /** When `s` starts with a match of `/\{\{([\w.-]+)\}\}/`, the length of the
      captured field name. */
  function Placeholder(s: string): (n: Option<nat>)
    ensures n.Some? ==> 1 <= n.value && n.value + 4 <= |s|
  {
    if |s| >= 2 && s[0] == '{' && s[1] == '{' then
      var n := NameRun(s[2..]);
      if n >= 1 && n + 4 <= |s| && s[n + 2] == '}' && s[n + 3] == '}' then Some(n) else None
    else None
  }

  /** What a match is: `{{`, then the name, made of `[\w.-]` characters
      only, then `}}`. */
  lemma PlaceholderShape(s: string)
    ensures var n := Placeholder(s);
      n.Some? ==> s[..2] == "{{" && (forall i :: 2 <= i < n.value + 2 ==> IsNameChar(s[i]))
                  && s[n.value + 2..n.value + 4] == "}}"
  {
    if Placeholder(s).Some? {
      var n := Placeholder(s).value;
      assert forall i :: 2 <= i < n + 2 ==> s[2..][i - 2] == s[i];
    }
  }

  /** `s.replace(/\{\{([\w.-]+)\}\}/g, replacer)`: the matches are found left
      to right, each replaced by what `replacer` returns, and the text between
      them is kept. */
  function Expand(s: string, fields: Dict, fuel: nat): Result<string>
    decreases fuel, |s|, 1
  {
    if s == [] then Ok([])
    else
      match Placeholder(s)
      case Some(n) =>
        var value :- Replacement(s[2..n + 2], fields, fuel);
        var rest :- Expand(s[n + 4..], fields, fuel);
        Ok(value + rest)
      case None =>
        var rest :- Expand(s[1..], fields, fuel);
        Ok([s[0]] + rest)
  }

  /** What `replacer` returns for the field `name`: the empty string when the
      path is missing, a string value expanded again when it holds `{{`, and any
      other value as `String()` prints it. */
  function Replacement(name: string, fields: Dict, fuel: nat): Result<string>
    decreases fuel, 0, 0
  {
    match Lookup(Obj(fields), Split(name, '.'))
    case None => Ok("")
    case Some(Str(v)) =>
      if !HasOpenBraces(v) then Ok(v)
      else if fuel == 0 then Err(RangeError)
      else Expand(v, fields, fuel - 1)
    case Some(other) => Ok(ToJsString(other))
  }

  /** `fields || EMPTY`. */
  function FieldsOrEmpty(fields: Option<Dict>): Dict {
    if fields.Some? then fields.value else map[]
  }

  /** `template(template, fields)`: a falsy template comes back as it is, a
      string is expanded against `fields || {}`, and any other value throws
      because it has no `replace`. */
  function Template(template: Option<Value>, fields: Option<Dict>, fuel: nat): (r: Result<Option<Value>>)
    ensures !Truthy(template) ==> r == Ok(template)
    ensures Truthy(template) && !template.value.Str? ==> r == Err(TypeError)
    ensures r.Ok? && Truthy(template) ==> r.value.Some? && r.value.value.Str?
  {
    var f := FieldsOrEmpty(fields);
    if !Truthy(template) then Ok(template)
    else if template.value.Str? then
      var s :- Expand(template.value.s, f, fuel);
      Ok(Some(Str(s)))
    else Err(TypeError)
  }

  /** `replacer(s, field)`: walks `v` from the fields object along the
      segments of the name, then expands a string that holds `{{`. */
  method Replacer(field: string, fields: Dict, fuel: nat) returns (r: Result<string>)
    ensures r == Replacement(field, fields, fuel)
  {
    var parts := Split(field, '.');
    var v := Obj(fields);
    var i := 0;
    while i < |parts|
      invariant 0 <= i <= |parts|
      invariant Lookup(Obj(fields), parts) == Lookup(v, parts[i..])
    {
      if !(v.Obj? && parts[i] in v.entries) {
        return Ok("");
      }
      v := v.entries[parts[i]];
      i := i + 1;
    }
    assert parts[i..] == [];
    if v.Str? && HasOpenBraces(v.s) {
      if fuel == 0 {
        return Err(RangeError);
      }
      r := Expand(v.s, fields, fuel - 1);
    } else {
      r := Ok(ToJsString(v));
    }
  }

  /** No match of the placeholder pattern starts anywhere in `s`. */
  predicate NoPlaceholder(s: string) {
    forall i :: 0 <= i < |s| ==> Placeholder(s[i..]).None?
  }

  /** A string without placeholders is its own expansion, whatever the fields. */
  lemma {:induction false} ExpandNoPlaceholder(s: string, fields: Dict, fuel: nat)
    requires NoPlaceholder(s)
    ensures Expand(s, fields, fuel) == Ok(s)
    decreases |s|
  {
    if s != [] {
      assert Placeholder(s[0..]).None?;
      assert s[0..] == s;
      assert forall i :: 0 <= i < |s[1..]| ==> s[1..][i..] == s[i + 1..];
      ExpandNoPlaceholder(s[1..], fields, fuel);
      assert [s[0]] + s[1..] == s;
    }
  }

  /** A string without `{{` has no placeholders. */
  lemma NoBracesNoPlaceholder(s: string)
    requires !HasOpenBraces(s)
    ensures NoPlaceholder(s)
  {
    forall i | 0 <= i < |s|
      ensures Placeholder(s[i..]).None?
    {
      NoBracesSuffix(s, i);
    }
  }

  lemma {:induction false} NoBracesSuffix(s: string, i: nat)
    requires !HasOpenBraces(s) && i <= |s|
    ensures !HasOpenBraces(s[i..])
    decreases i
  {
    if i > 0 {
      assert s[1..][i - 1..] == s[i..];
      NoBracesSuffix(s[1..], i - 1);
    }
  }

  /** A first character that starts no placeholder is copied through. */
  lemma ExpandCopies(s: string, fields: Dict, fuel: nat)
    requires s != [] && Placeholder(s).None?
    ensures Expand(s, fields, fuel) ==
      match Expand(s[1..], fields, fuel) case Ok(r) => Ok([s[0]] + r) case Err(e) => Err(e)
  {
  }

  /** Text with no `{` in front of the rest cannot start a placeholder, so it is
      copied through. */
  lemma {:induction false} ExpandLiteral(text: string, rest: string, fields: Dict, fuel: nat)
    requires '{' !in text
    ensures Expand(text + rest, fields, fuel) ==
      match Expand(rest, fields, fuel) case Ok(r) => Ok(text + r) case Err(e) => Err(e)
    decreases |text|
  {
    if text == [] {
      assert text + rest == rest;
      var tail := Expand(rest, fields, fuel);
      if tail.Ok? {
        assert text + tail.value == tail.value;
      }
    } else {
      var s := text + rest;
      assert s[0] == text[0] && text[0] in text;
      assert Placeholder(s).None?;
      ExpandCopies(s, fields, fuel);
      assert s[1..] == text[1..] + rest;
      assert forall c :: c in text[1..] ==> c in text;
      ExpandLiteral(text[1..], rest, fields, fuel);
      var tail := Expand(rest, fields, fuel);
      if tail.Ok? {
        assert [s[0]] + (text[1..] + tail.value) == ([s[0]] + text[1..]) + tail.value;
        assert [s[0]] + text[1..] == text;
      }
    }
  }

  /** `{{name}}` followed by the rest: the placeholder becomes the field's
      replacement and the rest is expanded after it. */
  lemma ExpandPlaceholder(name: string, rest: string, fields: Dict, fuel: nat)
    requires name != []
    requires forall i :: 0 <= i < |name| ==> IsNameChar(name[i])
    ensures Expand("{{" + name + "}}" + rest, fields, fuel) ==
      match Replacement(name, fields, fuel)
      case Err(e) => Err(e)
      case Ok(v) => match Expand(rest, fields, fuel) case Ok(r) => Ok(v + r) case Err(e) => Err(e)
  {
    var s := "{{" + name + "}}" + rest;
    NameRunOf(name, "}}" + rest);
    assert s[2..] == name + ("}}" + rest);
    assert Placeholder(s) == Some(|name|);
    assert s[2..|name| + 2] == name;
    assert s[|name| + 4..] == rest;
  }

  lemma {:induction false} NameRunOf(name: string, rest: string)
    requires forall i :: 0 <= i < |name| ==> IsNameChar(name[i])
    requires rest == [] || !IsNameChar(rest[0])
    ensures NameRun(name + rest) == |name|
    decreases |name|
  {
    if name != [] {
      assert (name + rest)[1..] == name[1..] + rest;
      NameRunOf(name[1..], rest);
    } else {
      assert name + rest == rest;
    }
  }

  /** Expansion can only fail by overflowing the stack: every `replace` call it
      makes is on a string. */
  lemma {:induction false} ExpandOnlyOverflows(s: string, fields: Dict, fuel: nat)
    ensures Expand(s, fields, fuel).Err? ==> Expand(s, fields, fuel).error == RangeError
    decreases fuel, |s|, 1
  {
    if s != [] {
      match Placeholder(s)
      case Some(n) =>
        ReplacementOnlyOverflows(s[2..n + 2], fields, fuel);
        ExpandOnlyOverflows(s[n + 4..], fields, fuel);
      case None =>
        ExpandOnlyOverflows(s[1..], fields, fuel);
    }
  }

  lemma {:induction false} ReplacementOnlyOverflows(name: string, fields: Dict, fuel: nat)
    ensures Replacement(name, fields, fuel).Err? ==> Replacement(name, fields, fuel).error == RangeError
    decreases fuel, 0, 0
  {
    match Lookup(Obj(fields), Split(name, '.'))
    case Some(Str(v)) =>
      if HasOpenBraces(v) && fuel > 0 {
        ExpandOnlyOverflows(v, fields, fuel - 1);
      }
    case _ =>
  }

  /** More fuel never changes a completed expansion: the result does not
      depend on the bound, only on whether it is reached. */
  lemma {:induction false} ExpandFuelMonotone(s: string, fields: Dict, fuel: nat, more: nat)
    requires fuel <= more
    requires Expand(s, fields, fuel).Ok?
    ensures Expand(s, fields, more) == Expand(s, fields, fuel)
    decreases fuel, |s|, 1
  {
    if s != [] {
      match Placeholder(s)
      case Some(n) =>
        ReplacementFuelMonotone(s[2..n + 2], fields, fuel, more);
        ExpandFuelMonotone(s[n + 4..], fields, fuel, more);
      case None =>
        ExpandFuelMonotone(s[1..], fields, fuel, more);
    }
  }

  lemma {:induction false} ReplacementFuelMonotone(name: string, fields: Dict, fuel: nat, more: nat)
    requires fuel <= more
    requires Replacement(name, fields, fuel).Ok?
    ensures Replacement(name, fields, more) == Replacement(name, fields, fuel)
    decreases fuel, 0, 0
  {
    match Lookup(Obj(fields), Split(name, '.'))
    case Some(Str(v)) =>
      if HasOpenBraces(v) {
        ExpandFuelMonotone(v, fields, fuel - 1, more - 1);
      }
    case _ =>
  }

  /** A field that refers to itself, `{a: '{{a}}'}`, never finishes: the
      expansion overflows whatever the bound. */
  lemma {:induction false} SelfReferenceOverflows(fuel: nat)
    ensures Template(Some(Str("{{a}}")), Some(map["a" := Str("{{a}}")]), fuel) == Err(RangeError)
    decreases fuel
  {
    var t := "{{a}}";
    var fields := map["a" := Str(t)];
    assert Replacement("a", fields, fuel) == Err(RangeError) by {
      SingleField(fields, "a");
      assert HasOpenBraces(t);
      if fuel > 0 {
        SelfReferenceOverflows(fuel - 1);
      }
    }
    assert Expand(t, fields, fuel) == Err(RangeError) by {
      var p := "{{" + "a" + "}}";
      assert t == p;
      ExpandPlaceholder("a", "", fields, fuel);
      assert p + "" == p;
    }
  }

  /** Every string inside `v` is free of `{{`. */
  predicate Plain(v: Value) {
    match v
    case Str(s) => !HasOpenBraces(s)
    case Arr(items) => forall x :: x in items ==> Plain(x)
    case Obj(m) => forall k :: k in m ==> Plain(m[k])
  }

  lemma {:induction false} LookupPlain(v: Value, path: seq<string>)
    requires Plain(v)
    ensures Lookup(v, path).Some? ==> Plain(Lookup(v, path).value)
    decreases path
  {
    if path != [] && v.Obj? && path[0] in v.entries {
      LookupPlain(v.entries[path[0]], path[1..]);
    }
  }

  /** When no field value holds `{{`, expansion never recurses, so it never
      fails, even with no fuel at all. */
  lemma {:induction false} ExpandPlainFields(s: string, fields: Dict, fuel: nat)
    requires Plain(Obj(fields))
    ensures Expand(s, fields, fuel).Ok?
    decreases |s|
  {
    if s != [] {
      match Placeholder(s)
      case Some(n) =>
        LookupPlain(Obj(fields), Split(s[2..n + 2], '.'));
        ExpandPlainFields(s[n + 4..], fields, fuel);
      case None =>
        ExpandPlainFields(s[1..], fields, fuel);
    }
  }

  /** A name without dots looks up one property of the fields. */
  lemma SingleField(fields: Dict, name: string)
    requires '.' !in name
    ensures Lookup(Obj(fields), Split(name, '.')) == Get(fields, name)
  {
    SplitNoSeparator(name, '.');
    assert [name][1..] == [];
    if name in fields {
      assert Lookup(Obj(fields), [name]) == Lookup(fields[name], []);
    }
  }

  /** A missing path is replaced by the empty string; a plain string found at
      the path is inserted as it is; a string holding `{{` is expanded against
      the same fields before it is inserted. */
  lemma ReplacementOfLookup(name: string, fields: Dict, fuel: nat)
    ensures Lookup(Obj(fields), Split(name, '.')) == None ==> Replacement(name, fields, fuel) == Ok("")
    ensures forall v :: Lookup(Obj(fields), Split(name, '.')) == Some(Str(v)) && !HasOpenBraces(v) ==>
      Replacement(name, fields, fuel) == Ok(v)
    ensures forall v :: Lookup(Obj(fields), Split(name, '.')) == Some(Str(v)) && HasOpenBraces(v) && fuel > 0 ==>
      Replacement(name, fields, fuel) == Expand(v, fields, fuel - 1)
  {
  }

  /** Text followed by one placeholder: the placeholder becomes its
      replacement. */
  lemma SubstituteField(text: string, name: string, fields: Dict, value: string, fuel: nat)
    requires '{' !in text
    requires name != [] && forall i :: 0 <= i < |name| ==> IsNameChar(name[i])
    requires Replacement(name, fields, fuel) == Ok(value)
    ensures Template(Some(Str(text + ("{{" + name + "}}"))), Some(fields), fuel) == Ok(Some(Str(text + value)))
  {
    var p := "{{" + name + "}}";
    assert Expand(p, fields, fuel) == Ok(value) by {
      assert Expand("", fields, fuel) == Ok("");
      ExpandPlaceholder(name, "", fields, fuel);
      assert p + "" == p;
      assert value + "" == value;
    }
    assert Expand(text + p, fields, fuel) == Ok(text + value) by {
      ExpandLiteral(text, p, fields, fuel);
    }
    assert |text + p| > 0;
  }

  /** Absent fields behave as `{}`. */
  lemma AbsentFields(template: Option<Value>, fuel: nat)
    ensures Template(template, None, fuel) == Template(template, Some(map[]), fuel)
  {
  }

  /** `template('foo{{bar}}', { bar: 'baz' }) === 'foobaz'`. */
  lemma FooBar(fuel: nat)
    ensures Template(Some(Str("foo{{bar}}")), Some(map["bar" := Str("baz")]), fuel) == Ok(Some(Str("foobaz")))
  {
    var fields := map["bar" := Str("baz")];
    assert Replacement("bar", fields, fuel) == Ok("baz") by {
      SingleField(fields, "bar");
      ReplacementOfLookup("bar", fields, fuel);
    }
    var t := "foo" + ("{{" + "bar" + "}}");
    assert Template(Some(Str(t)), Some(fields), fuel) == Ok(Some(Str("foobaz"))) by {
      SubstituteField("foo", "bar", fields, "baz", fuel);
      assert "foo" + "baz" == "foobaz";
    }
    assert t == "foo{{bar}}";
  }

  /** A template that is one placeholder becomes that placeholder's
      replacement. */
  lemma OnlyPlaceholder(name: string, fields: Dict, value: string, fuel: nat)
    requires name != [] && forall i :: 0 <= i < |name| ==> IsNameChar(name[i])
    requires Replacement(name, fields, fuel) == Ok(value)
    ensures Template(Some(Str("{{" + name + "}}")), Some(fields), fuel) == Ok(Some(Str(value)))
  {
    var p := "{{" + name + "}}";
    assert Expand("", fields, fuel) == Ok("");
    ExpandPlaceholder(name, "", fields, fuel);
    assert p + "" == p;
    assert value + "" == value;
  }

  /** A missing field is replaced by nothing: `{{x}}` with `{}` is empty. */
  lemma MissingField(fuel: nat)
    ensures Template(Some(Str("{{x}}")), Some(map[]), fuel) == Ok(Some(Str("")))
  {
    var empty: Dict := map[];
    assert Replacement("x", empty, fuel) == Ok("") by {
      SingleField(empty, "x");
      ReplacementOfLookup("x", empty, fuel);
    }
    OnlyPlaceholder("x", empty, "", fuel);
    assert "{{" + "x" + "}}" == "{{x}}";
  }

  /** Nested paths: `{{a.b}}` with `{a: {b: 'y'}}` is `y`. */
  lemma NestedPath(fuel: nat)
    ensures Template(Some(Str("{{a.b}}")), Some(map["a" := Obj(map["b" := Str("y")])]), fuel) == Ok(Some(Str("y")))
  {
    var inner := map["b" := Str("y")];
    var fields := map["a" := Obj(inner)];
    assert Split("a.b", '.') == ["a", "b"] by {
      SplitAfterPiece("a", "b", '.');
      SplitNoSeparator("b", '.');
      assert "a.b" == "a" + ['.'] + "b";
    }
    assert Replacement("a.b", fields, fuel) == Ok("y") by {
      assert Lookup(Obj(inner), ["b"]) == Lookup(Str("y"), []);
      assert Lookup(Obj(fields), ["a", "b"]) == Lookup(Obj(inner), ["b"]);
      assert !HasOpenBraces("y");
      ReplacementOfLookup("a.b", fields, fuel);
    }
    OnlyPlaceholder("a.b", fields, "y", fuel);
    assert "{{" + "a.b" + "}}" == "{{a.b}}";
  }
}
