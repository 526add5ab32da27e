/** `IntlProvider.getChildContext`: the `intl` context a provider hands to its
    subtree, built from the context it received and its own props. */
module Context {
  import opened JsValues
  import opened Strings
  import opened Paths
  import opened Plural
  import opened Merge
  import opened Translate

  /** The `intl` object in context.  `mark` stands for `intl.mark === true`;
      an undefined `provider` is `None`. */
  datatype IntlContext = IntlContext(scope: Option<string>, dictionary: Option<Dict>, mark: bool,
                                     provider: Option<Pluralizer>)

  /** The props of an `<IntlProvider>`. */
  datatype ProviderProps = ProviderProps(scope: Option<string>, definition: Option<Dict>, mark: bool,
                                         provider: Option<Pluralizer>)

  /** `assign({}, this.context.intl || {})`: the context received, or an empty one. */
  function Inherited(parent: Option<IntlContext>): IntlContext {
    if parent.Some? then parent.value else IntlContext(None, None, false, None)
  }

  /** `getChildContext()` without the browser-location test: the scope is
      replaced only by a non-empty one, the definition is merged under the
      inherited dictionary, `mark` is switched on but never off, and the
      provider is always the prop's, even when that is undefined. */
  function ChildContext(parent: Option<IntlContext>, props: ProviderProps): (intl: IntlContext)
    ensures props.scope.Some? && props.scope.value != "" ==> intl.scope == props.scope
    ensures props.scope.None? || props.scope.value == "" ==> intl.scope == Inherited(parent).scope
    ensures props.definition.None? ==> intl.dictionary == Inherited(parent).dictionary
    ensures props.definition.Some? ==>
      intl.dictionary.Some? && intl.dictionary.value.Keys == InheritedDictionary(parent).Keys + props.definition.value.Keys
    ensures intl.mark <==> props.mark || Inherited(parent).mark
    ensures intl.provider == props.provider
  {
    var intl := Inherited(parent);
    var scope := if props.scope.Some? && props.scope.value != "" then props.scope else intl.scope;
    var dictionary :=
      if props.definition.Some? then Some(Merge.Merge(Obj(InheritedDictionary(parent)), Obj(props.definition.value)))
      else intl.dictionary;
    var mark := if props.mark then true else intl.mark;
    IntlContext(scope, dictionary, mark, props.provider)
  }

  /** `intl.dictionary || {}`. */
  function InheritedDictionary(parent: Option<IntlContext>): Dict {
    var d := Inherited(parent).dictionary;
    if d.Some? then d.value else map[]
  }

  /** Ancestors take precedence: every non-empty string the inherited
      dictionary holds at a key is still what the child's dictionary holds
      there, whatever the definition says. */
  lemma AncestorEntriesWin(parent: Option<IntlContext>, props: ProviderProps, key: string, text: string)
    requires text != ""
    requires Inherited(parent).dictionary.Some?
    requires Delve(Inherited(parent).dictionary.value, key) == Some(Str(text))
    ensures ChildContext(parent, props).dictionary.Some?
    ensures Delve(ChildContext(parent, props).dictionary.value, key) == Some(Str(text))
  {
    if props.definition.Some? {
      MergeKeepsTargetStrings(InheritedDictionary(parent), Obj(props.definition.value), Split(key, '.'), text);
    }
  }

  /** The definition acts as defaults: where nothing is inherited along a key,
      the child's dictionary holds what the definition holds there. */
  lemma DefinitionFillsGaps(parent: Option<IntlContext>, props: ProviderProps, key: string, w: Value)
    requires props.definition.Some?
    requires Undefined(Obj(InheritedDictionary(parent)), Split(key, '.'))
    requires Delve(props.definition.value, key) == Some(w)
    ensures ChildContext(parent, props).dictionary.Some?
    ensures Delve(ChildContext(parent, props).dictionary.value, key) == Some(w)
  {
    MergeFillsUndefined(InheritedDictionary(parent), props.definition.value, Split(key, '.'), w);
  }

  /** A provider that sets no scope translates every key its ancestors
      translate to a plain string exactly as they do. */
  lemma ChildTranslatesLikeParent(parent: IntlContext, props: ProviderProps, id: string, text: string,
                                  fields: Option<Dict>, fallback: Option<Value>, fuel: nat)
    requires props.scope.None? || props.scope.value == ""
    requires text != ""
    requires Entry(id, parent.scope, parent.dictionary) == Some(Str(text))
    ensures var child := ChildContext(Some(parent), props);
      Translate.Translate(id, child.scope, child.dictionary, fields, None, fallback, child.provider, fuel)
      == Translate.Translate(id, parent.scope, parent.dictionary, fields, None, fallback, parent.provider, fuel)
  {
    var key := ScopedId(id, parent.scope);
    AncestorEntriesWin(Some(parent), props, key, text);
  }

  /** The scope is not a namespace for the definition: under a top-level
      provider whose definition has no entry named after its scope, no key is
      found and every `<Text>` renders its fallback. */
  lemma ScopeDoesNotNestDefinition(scope: string, definition: Dict, id: string, fallback: Option<Value>, fuel: nat)
    requires scope != "" && '.' !in scope && scope !in definition
    ensures var intl := ChildContext(None, ProviderProps(Some(scope), Some(definition), false, None));
      Translate.Translate(id, intl.scope, intl.dictionary, None, None, fallback, intl.provider, fuel)
      == Ok(if Truthy(fallback) then fallback else None)
  {
    var intl := ChildContext(None, ProviderProps(Some(scope), Some(definition), false, None));
    var key := ScopedId(id, Some(scope));
    SplitNoSeparator(scope, '.');
    assert Split(key, '.')[0] == scope;
    assert scope !in intl.dictionary.value;
    MissingHead(intl.dictionary.value, key);
    MissingKeyFallsBack(id, intl.scope, intl.dictionary, None, fallback, intl.provider, fuel);
  }

  /** The documented `weather` example: a provider with scope `weather` and
      definition `{foo: 'Le Feux'}` merges `foo` at the root, so
      `<Text id="foo">The Foo</Text>` under it looks up `weather.foo`, finds
      nothing and renders `The Foo`. */
  lemma WeatherExample(fuel: nat)
    ensures var intl := ChildContext(None, ProviderProps(Some("weather"), Some(map["foo" := Str("Le Feux")]), false, None));
      Translate.Translate("foo", intl.scope, intl.dictionary, None, None, Some(Str("The Foo")), intl.provider, fuel)
      == Ok(Some(Str("The Foo")))
  {
    WeatherIsOneSegment();
    ScopeDoesNotNestDefinition("weather", map["foo" := Str("Le Feux")], "foo", Some(Str("The Foo")), fuel);
  }

  /** Scopes do not nest: a provider's scope replaces the inherited one
      instead of extending it, so under scope `inner` a key is looked up as
      `inner.id` at the root of the dictionary, and a dictionary with no
      `inner` entry at its root leaves every key of that scope untranslated. */
  lemma ScopesDoNotNest(parent: IntlContext, props: ProviderProps, inner: string, id: string,
                        fallback: Option<Value>, fuel: nat)
    requires props.scope == Some(inner) && inner != "" && '.' !in inner
    requires props.definition.None?
    requires parent.dictionary.Some? && inner !in parent.dictionary.value
    ensures var child := ChildContext(Some(parent), props);
      Translate.Translate(id, child.scope, child.dictionary, None, None, fallback, child.provider, fuel)
      == Ok(if Truthy(fallback) then fallback else None)
  {
    var child := ChildContext(Some(parent), props);
    var key := ScopedId(id, Some(inner));
    SplitNoSeparator(inner, '.');
    assert Split(key, '.')[0] == inner;
    MissingHead(parent.dictionary.value, key);
    MissingKeyFallsBack(id, child.scope, child.dictionary, None, fallback, child.provider, fuel);
  }

  /** A provider with scope `b` inside one with scope `a`: `<Text id="x">`
      does not reach the `a.b.x` entry of `{a: {b: {x: 't'}}}` and renders its
      fallback. */
  lemma NestedScopeExample(fuel: nat)
    ensures var parent := IntlContext(Some("a"), Some(map["a" := Obj(map["b" := Obj(map["x" := Str("t")])])]), false, None);
      var child := ChildContext(Some(parent), ProviderProps(Some("b"), None, false, None));
      Translate.Translate("x", child.scope, child.dictionary, None, None, Some(Str("X")), child.provider, fuel)
      == Ok(Some(Str("X")))
  {
    var parent := IntlContext(Some("a"), Some(map["a" := Obj(map["b" := Obj(map["x" := Str("t")])])]), false, None);
    assert "b" != "" && '.' !in "b" && "b" !in parent.dictionary.value;
    ScopesDoNotNest(parent, ProviderProps(Some("b"), None, false, None), "b", "x", Some(Str("X")), fuel);
  }

  /** A top-level provider whose definition is written under its scope's own
      key translates the keys of that scope from it. */
  lemma DefinitionUnderScope(scope: string, sub: Dict, id: string, text: string,
                             fallback: Option<Value>, fuel: nat)
    requires scope != "" && '.' !in scope
    requires text != "" && !HasOpenBraces(text)
    requires Delve(sub, id) == Some(Str(text))
    ensures var intl := ChildContext(None, ProviderProps(Some(scope), Some(map[scope := Obj(sub)]), false, None));
      Translate.Translate(id, intl.scope, intl.dictionary, None, None, fallback, intl.provider, fuel)
      == Ok(Some(Str(text)))
  {
    var definition := map[scope := Obj(sub)];
    var props := ProviderProps(Some(scope), Some(definition), false, None);
    var intl := ChildContext(None, props);
    var key := ScopedId(id, Some(scope));
    PlainKey(definition, scope);
    ScopedDelve(definition, scope, id);
    SplitNoSeparator(scope, '.');
    assert Undefined(Obj(map[]), Split(key, '.'));
    DefinitionFillsGaps(None, props, key, Str(text));
    TranslateFoundString(id, intl.scope, intl.dictionary, None, fallback, intl.provider, fuel, text);
  }

  /** With the definition written under the scope's own key, the same
      `<Text>` renders the translation. */
  lemma ScopedDefinition(fuel: nat)
    ensures var intl := ChildContext(None, ProviderProps(Some("weather"),
                                      Some(map["weather" := Obj(map["foo" := Str("Le Feux")])]), false, None));
      Translate.Translate("foo", intl.scope, intl.dictionary, None, None, Some(Str("The Foo")), intl.provider, fuel)
      == Ok(Some(Str("Le Feux")))
  {
    var sub := map["foo" := Str("Le Feux")];
    assert Delve(sub, "foo") == Some(Str("Le Feux")) by {
      PlainKey(sub, "foo");
    }
    assert !HasOpenBraces("Le Feux") by {
      NoBraceNoOpenBraces("Le Feux");
    }
    WeatherIsOneSegment();
    DefinitionUnderScope("weather", sub, "foo", "Le Feux", Some(Str("The Foo")), fuel);
  }

  /** The scope of the documented examples is a single key segment. */
  lemma WeatherIsOneSegment()
    ensures "weather" != "" && '.' !in "weather"
  {
  }
}
