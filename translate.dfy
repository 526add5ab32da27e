/** `translate`: resolving one key against a dictionary, from the scope prefix
    to the fallback text. */
module Translate {
  import opened JsValues
  import opened Strings
  import opened Paths
  import opened Plural
  import opened Template

  /** `if (scope) id = scope + '.' + id`: a non-empty scope puts its own
      segments in front of the key's. */
  function ScopedId(id: string, scope: Option<string>): (key: string)
    ensures scope.None? || scope.value == "" ==> key == id
    ensures scope.Some? && scope.value != "" ==> Split(key, '.') == Split(scope.value, '.') + Split(id, '.')
  {
    if scope.Some? && scope.value != "" then
      SplitConcat(scope.value, id, '.');
      assert scope.value + "." + id == scope.value + ['.'] + id;
      scope.value + "." + id
    else id
  }

  /** `dictionary && delve(dictionary, id)`: the raw dictionary entry for the
      (scoped) key, undefined when there is no dictionary. */
  function Entry(id: string, scope: Option<string>, dictionary: Option<Dict>): (value: Option<Value>)
    ensures dictionary.None? ==> value == None
    ensures dictionary.Some? && (scope.None? || scope.value == "") ==> value == Delve(dictionary.value, id)
  {
    if dictionary.Some? then Delve(dictionary.value, ScopedId(id, scope)) else None
  }

  /** `plural ? pluralizer(value, plural) || defaultProvider(value, plural) : value`,
      with `pluralizer` defaulting to `defaultProvider`.  A count of 0 is falsy,
      so it leaves the entry as it is. */
  function PluralForm(value: Option<Value>, plural: Option<int>, pluralizer: Option<Pluralizer>): (form: Option<Value>)
    ensures plural.None? || plural.value == 0 ==> form == value
    ensures plural.Some? && plural.value != 0 && pluralizer.None? ==> form == DefaultProvider(value, plural)
    ensures plural.Some? && plural.value != 0 && pluralizer.Some? ==>
      form == (if Truthy(pluralizer.value(value, plural.value)) then pluralizer.value(value, plural.value)
               else DefaultProvider(value, plural))
  {
    if plural.None? || plural.value == 0 then value
    else
      var chosen := if pluralizer.Some? then pluralizer.value(value, plural.value) else DefaultProvider(value, plural);
      Or(chosen, DefaultProvider(value, plural))
  }

  /** `translate(id, scope, dictionary, fields, plural, fallback, pluralizer)`:
      the entry, its plural form, the form filled in from `fields`, and then
      `|| fallback || null` (`null` is `None`).  The result is never an empty
      string, and anything but a string is the fallback itself; a form that is
      not a string throws, as `template` does. */
  function Translate(id: string, scope: Option<string>, dictionary: Option<Dict>, fields: Option<Dict>,
                     plural: Option<int>, fallback: Option<Value>, pluralizer: Option<Pluralizer>,
                     fuel: nat): (r: Result<Option<Value>>)
    ensures r.Ok? && r.value.Some? ==> IsTruthy(r.value.value)
    ensures r.Ok? && r.value.Some? && !r.value.value.Str? ==> r.value == fallback
    ensures r.Ok? && !Truthy(fallback) && r.value.Some? ==> Truthy(PluralForm(Entry(id, scope, dictionary), plural, pluralizer))
    ensures r == Err(TypeError) <==> Truthy(PluralForm(Entry(id, scope, dictionary), plural, pluralizer))
                                     && !PluralForm(Entry(id, scope, dictionary), plural, pluralizer).value.Str?
  {
    var form := PluralForm(Entry(id, scope, dictionary), plural, pluralizer);
    var text := if Truthy(form) && form.value.Str? then form.value.s else "";
    ExpandOnlyOverflows(text, FieldsOrEmpty(fields), fuel);
    Resolve(form, fields, fallback, fuel)
  }

  /** `value && template(value, fields) || fallback || null` for the chosen
      form: `template` hands a falsy value back unchanged, just as the `&&`
      would. */
  function Resolve(form: Option<Value>, fields: Option<Dict>, fallback: Option<Value>, fuel: nat): Result<Option<Value>> {
    var text :- Template.Template(form, fields, fuel);
    Ok(Or(Or(text, fallback), None))
  }

  /** What `translate` returns, for every input: a falsy form gives the
      fallback, or `null`; a string form gives its expansion when that is not
      empty, and otherwise the fallback, or `null`; an expansion fails only by
      overflowing the stack. */
  lemma TranslateResult(id: string, scope: Option<string>, dictionary: Option<Dict>, fields: Option<Dict>,
                        plural: Option<int>, fallback: Option<Value>, pluralizer: Option<Pluralizer>, fuel: nat)
    ensures var form, r := PluralForm(Entry(id, scope, dictionary), plural, pluralizer),
                          Translate(id, scope, dictionary, fields, plural, fallback, pluralizer, fuel);
      && (!Truthy(form) ==> r == Ok(if Truthy(fallback) then fallback else None))
      && (Truthy(form) && form.value.Str? && Expand(form.value.s, FieldsOrEmpty(fields), fuel).Ok? ==>
            var e := Expand(form.value.s, FieldsOrEmpty(fields), fuel).value;
            r == Ok(if e != "" then Some(Str(e)) else if Truthy(fallback) then fallback else None))
      && (Truthy(form) && form.value.Str? && Expand(form.value.s, FieldsOrEmpty(fields), fuel).Err? ==>
            r == Err(RangeError))
  {
    var form := PluralForm(Entry(id, scope, dictionary), plural, pluralizer);
    if Truthy(form) && form.value.Str? {
      ExpandOnlyOverflows(form.value.s, FieldsOrEmpty(fields), fuel);
    }
  }

  /** With a count other than 0 and the default pluralizer, an entry that is a
      plain string has no plural form: `defaultProvider` only picks from
      objects, so the fallback is returned, or `null`. */
  lemma CountedStringFallsBack(id: string, scope: Option<string>, dictionary: Option<Dict>, fields: Option<Dict>,
                               n: int, fallback: Option<Value>, text: string, fuel: nat)
    requires n != 0
    requires Entry(id, scope, dictionary) == Some(Str(text))
    ensures Translate(id, scope, dictionary, fields, Some(n), fallback, None, fuel)
         == Ok(if Truthy(fallback) then fallback else None)
  {
    assert PluralForm(Some(Str(text)), Some(n), None) == None;
    TranslateResult(id, scope, dictionary, fields, Some(n), fallback, None, fuel);
  }

  /** A scope selects a sub-dictionary: translating `id` in scope `scope` is
      translating `id` with no scope in the entry the dictionary holds at
      `scope`. */
  lemma TranslateInScope(id: string, scope: string, dictionary: Dict, sub: Dict, fields: Option<Dict>,
                         plural: Option<int>, fallback: Option<Value>, pluralizer: Option<Pluralizer>, fuel: nat)
    requires scope != ""
    requires Delve(dictionary, scope) == Some(Obj(sub))
    ensures Translate(id, Some(scope), Some(dictionary), fields, plural, fallback, pluralizer, fuel)
         == Translate(id, None, Some(sub), fields, plural, fallback, pluralizer, fuel)
  {
    ScopedDelve(dictionary, scope, id);
    assert Entry(id, Some(scope), Some(dictionary)) == Entry(id, None, Some(sub));
  }

  /** `translate('foo', 'weather', {weather: {foo: 'Le Feux'}}, {}, undefined,
      'X')` is `'Le Feux'`. */
  lemma WeatherScope(fuel: nat)
    ensures Translate("foo", Some("weather"), Some(map["weather" := Obj(map["foo" := Str("Le Feux")])]), Some(map[]),
                      None, Some(Str("X")), None, fuel) == Ok(Some(Str("Le Feux")))
  {
    var sub := map["foo" := Str("Le Feux")];
    var dictionary := map["weather" := Obj(sub)];
    assert Entry("foo", Some("weather"), Some(dictionary)) == Some(Str("Le Feux")) by {
      PlainKey(dictionary, "weather");
      SplitNoSeparator("foo", '.');
      assert Lookup(Obj(sub), ["foo"]) == Lookup(Str("Le Feux"), []);
      ScopedDelve(dictionary, "weather", "foo");
    }
    NoBraceNoOpenBraces("Le Feux");
    TranslateFoundString("foo", Some("weather"), Some(dictionary), Some(map[]), Some(Str("X")), None, fuel, "Le Feux");
  }

  /** A scope whose entry is missing, or is not an object, leaves every key of
      it untranslated. */
  lemma MissingScope(id: string, scope: string, dictionary: Dict)
    requires scope != ""
    requires Delve(dictionary, scope).None? || Delve(dictionary, scope).value.Str?
    ensures Entry(id, Some(scope), Some(dictionary)) == None
  {
    ScopedDelve(dictionary, scope, id);
    if Delve(dictionary, scope).Some? {
      var w := Delve(dictionary, scope).value;
      assert Split(id, '.') != [];
    }
  }

  /** With no dictionary and the default pluralizer, the result is the
      fallback, or `null` when the fallback is empty or missing. */
  lemma TranslateWithoutDictionary(id: string, scope: Option<string>, fields: Option<Dict>,
                                   plural: Option<int>, fallback: Option<Value>, fuel: nat)
    ensures Translate(id, scope, None, fields, plural, fallback, None, fuel)
         == Ok(if Truthy(fallback) then fallback else None)
  {
  }

  /** A count of 0 is falsy: it picks no plural form, so it translates as no
      count at all, whatever the pluralizer. */
  lemma ZeroCountNotPluralized(id: string, scope: Option<string>, dictionary: Option<Dict>, fields: Option<Dict>,
                               fallback: Option<Value>, pluralizer: Option<Pluralizer>, fuel: nat)
    ensures Translate(id, scope, dictionary, fields, Some(0), fallback, pluralizer, fuel)
         == Translate(id, scope, dictionary, fields, None, fallback, pluralizer, fuel)
  {
  }

  /** A custom pluralizer that finds nothing for the entry hands over to
      `defaultProvider`. */
  lemma CustomPluralizerFallsBack(id: string, scope: Option<string>, dictionary: Option<Dict>, fields: Option<Dict>,
                                  n: int, fallback: Option<Value>, p: Pluralizer, fuel: nat)
    requires n != 0
    requires !Truthy(p(Entry(id, scope, dictionary), n))
    ensures Translate(id, scope, dictionary, fields, Some(n), fallback, Some(p), fuel)
         == Translate(id, scope, dictionary, fields, Some(n), fallback, None, fuel)
  {
  }

  /** An entry that is a non-empty string without placeholders is the
      translation, whatever the fields and the fallback. */
  lemma TranslateFoundString(id: string, scope: Option<string>, dictionary: Option<Dict>, fields: Option<Dict>,
                             fallback: Option<Value>, pluralizer: Option<Pluralizer>, fuel: nat, text: string)
    requires Entry(id, scope, dictionary) == Some(Str(text))
    requires text != "" && !HasOpenBraces(text)
    ensures Translate(id, scope, dictionary, fields, None, fallback, pluralizer, fuel) == Ok(Some(Str(text)))
  {
    NoBracesNoPlaceholder(text);
    ExpandNoPlaceholder(text, FieldsOrEmpty(fields), fuel);
  }

  /** A key with no entry falls back: the fallback when it is non-empty, and
      `null` otherwise. */
  lemma MissingKeyFallsBack(id: string, scope: Option<string>, dictionary: Option<Dict>, fields: Option<Dict>,
                            fallback: Option<Value>, pluralizer: Option<Pluralizer>, fuel: nat)
    requires Entry(id, scope, dictionary) == None
    ensures Translate(id, scope, dictionary, fields, None, fallback, pluralizer, fuel)
         == Ok(if Truthy(fallback) then fallback else None)
  {
  }

  /** An entry that fills in to the empty string falls through to the
      fallback as well. */
  lemma EmptyTranslationFallsBack(id: string, scope: Option<string>, dictionary: Option<Dict>, fields: Option<Dict>,
                                  fallback: Option<Value>, pluralizer: Option<Pluralizer>, fuel: nat, text: string)
    requires Entry(id, scope, dictionary) == Some(Str(text))
    requires Expand(text, FieldsOrEmpty(fields), fuel) == Ok("")
    ensures Translate(id, scope, dictionary, fields, None, fallback, pluralizer, fuel)
         == Ok(if Truthy(fallback) then fallback else None)
  {
  }

  /** Without a count, an entry that is a sub-dictionary or a plural-forms
      object is handed to `template` as it is and throws; a count of 0 does the
      same. */
  lemma ObjectEntryThrows(id: string, scope: Option<string>, dictionary: Option<Dict>, fields: Option<Dict>,
                          plural: Option<int>, fallback: Option<Value>, pluralizer: Option<Pluralizer>, fuel: nat)
    requires Entry(id, scope, dictionary).Some? && IsObject(Entry(id, scope, dictionary).value)
    requires plural.None? || plural.value == 0
    ensures Translate(id, scope, dictionary, fields, plural, fallback, pluralizer, fuel) == Err(TypeError)
  {
  }

  /** With a non-zero count and the default pluralizer, an entry with an
      `other` form and no `some`, `many` or `plural` form translates to that
      form for every count but 0 and 1. */
  lemma OtherForm(id: string, dictionary: Dict, m: Dict, n: int, text: string, fuel: nat)
    requires n != 0 && n != 1
    requires Delve(dictionary, id) == Some(Obj(m))
    requires "some" !in m && "many" !in m && "plural" !in m && Get(m, "other") == Some(Str(text))
    requires text != "" && !HasOpenBraces(text)
    ensures Translate(id, None, Some(dictionary), None, Some(n), None, None, fuel) == Ok(Some(Str(text)))
  {
    NoBracesNoPlaceholder(text);
    ExpandNoPlaceholder(text, map[], fuel);
  }

  /** An entry that is a string is filled in from the fields, and a
      non-empty result is the translation. */
  lemma TranslateTemplate(id: string, dictionary: Dict, fields: Option<Dict>, fallback: Option<Value>,
                          text: string, filled: string, fuel: nat)
    requires Delve(dictionary, id) == Some(Str(text))
    requires Template.Template(Some(Str(text)), fields, fuel) == Ok(Some(Str(filled)))
    requires filled != ""
    ensures Translate(id, None, Some(dictionary), fields, None, fallback, None, fuel) == Ok(Some(Str(filled)))
  {
  }

  /** The template of the `<Text>` example. */
  lemma LeFeuxTemplate(fuel: nat)
    ensures Template.Template(Some(Str("Le Feux {{bar}}")), Some(map["bar" := Str("BEAR")]), fuel)
         == Ok(Some(Str("Le Feux BEAR")))
  {
    var fields := map["bar" := Str("BEAR")];
    var template, filled := "Le Feux " + ("{{" + "bar" + "}}"), "Le Feux " + "BEAR";
    assert Template.Template(Some(Str(template)), Some(fields), fuel) == Ok(Some(Str(filled))) by {
      assert Replacement("bar", fields, fuel) == Ok("BEAR") by {
        SingleField(fields, "bar");
        NoBraceNoOpenBraces("BEAR");
        ReplacementOfLookup("bar", fields, fuel);
      }
      SubstituteField("Le Feux ", "bar", fields, "BEAR", fuel);
    }
    assert template == "Le Feux {{bar}}";
    assert filled == "Le Feux BEAR";
  }

  /** The `<Text>` example: `'Le Feux {{bar}}'` with `{bar: 'BEAR'}` is
      `'Le Feux BEAR'`. */
  lemma LeFeuxBear(fuel: nat)
    ensures Translate("foo", None, Some(map["foo" := Str("Le Feux {{bar}}")]), Some(map["bar" := Str("BEAR")]),
                      None, Some(Str("The Foo")), None, fuel) == Ok(Some(Str("Le Feux BEAR")))
  {
    var dictionary := map["foo" := Str("Le Feux {{bar}}")];
    PlainKey(dictionary, "foo");
    LeFeuxTemplate(fuel);
    TranslateTemplate("foo", dictionary, Some(map["bar" := Str("BEAR")]), Some(Str("The Foo")),
                      "Le Feux {{bar}}", "Le Feux BEAR", fuel);
  }
}
