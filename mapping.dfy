/** `translateMapping`: translating every selected prop of an element, as
    `<Localizer>` and `withText` do. */
module Mapping {
  import opened JsValues
  import opened Select
  import opened Context
  import opened Translate

  /** `intl.scope` of `intl || {}`. */
  function ScopeOf(intl: Option<IntlContext>): Option<string> {
    if intl.Some? then intl.value.scope else None
  }

  /** `intl.dictionary` of `intl || {}`. */
  function DictionaryOf(intl: Option<IntlContext>): Option<Dict> {
    if intl.Some? then intl.value.dictionary else None
  }

  /** `props[name]` is truthy. */
  predicate IsTruthyEntry(def: Entry) {
    match def
    case Id(key) => key != ""
    case TextNode(_) => true
    case Other(truthy) => truthy
  }

  /** The `fallback` of `assign({fallback: props.children}, props)`: the
      element's own `fallback` prop when it has one, its children otherwise. */
  function FallbackOf(props: TextProps): Option<Value> {
    if props.fallback.Some? then props.fallback else props.children
  }

  /** What one selected entry contributes: `None` when the loop skips it,
      otherwise the outcome of its `translate` call.  A key is translated
      with no fields, count or fallback; a `<Text>` element with its own props;
      neither uses the context's plural provider. */
  function EntryTranslation(def: Entry, scope: Option<string>, dictionary: Option<Dict>, onlyTextNodes: bool,
                            fuel: nat): Option<Result<Option<Value>>>
  {
    if !IsTruthyEntry(def) then None
    else if !onlyTextNodes && def.Id? then
      Some(Translate.Translate(def.key, scope, dictionary, None, None, None, None, fuel))
    else if def.TextNode? then
      var p := def.props;
      Some(Translate.Translate(p.id, scope, dictionary, p.fields, p.plural, FallbackOf(p), None, fuel))
    else None
  }

  /** The outcome for every entry that is not skipped. */
  function Translations(selected: map<string, Entry>, intl: Option<IntlContext>, onlyTextNodes: bool, fuel: nat)
    : map<string, Result<Option<Value>>>
  {
    var scope, dictionary := ScopeOf(intl), DictionaryOf(intl);
    map k | k in selected && EntryTranslation(selected[k], scope, dictionary, onlyTextNodes, fuel).Some? ::
      EntryTranslation(selected[k], scope, dictionary, onlyTextNodes, fuel).value
  }

  /** `translateMapping(props, intl, onlyTextNodes)`: when no translation
      throws, the result holds exactly the translated entries; otherwise the
      call throws what one of them throws. */
  method TranslateMapping(props: Properties, intl: Option<IntlContext>, onlyTextNodes: bool, fuel: nat)
    returns (r: Result<map<string, Option<Value>>>)
    ensures var t := Translations(Selected(props), intl, onlyTextNodes, fuel);
      && (r.Ok? <==> forall k :: k in t ==> t[k].Ok?)
      && (r.Ok? ==> r.value.Keys == t.Keys && forall k :: k in t ==> t[k] == Ok(r.value[k]))
      && (r.Err? ==> exists k :: k in t && t[k] == Err(r.error))
  {
    var selected := Select.Select(props);
    ghost var t := Translations(selected, intl, onlyTextNodes, fuel);
    var out: map<string, Option<Value>> := map[];
    var todo := selected.Keys;
    while todo != {}
      invariant todo <= selected.Keys
      invariant out.Keys == t.Keys - todo
      invariant forall k :: k in out ==> t[k] == Ok(out[k])
      decreases todo
    {
      var name :| name in todo;
      var def := selected[name];
      if IsTruthyEntry(def) {
        if !onlyTextNodes && def.Id? {
          var value := Translate.Translate(def.key, ScopeOf(intl), DictionaryOf(intl), None, None, None, None, fuel);
          assert t[name] == value;
          if value.Err? {
            return Err(value.error);
          }
          out := out[name := value.value];
        } else if def.TextNode? {
          var p := def.props;
          var value := Translate.Translate(p.id, ScopeOf(intl), DictionaryOf(intl), p.fields, p.plural,
                                           FallbackOf(p), None, fuel);
          assert t[name] == value;
          if value.Err? {
            return Err(value.error);
          }
          out := out[name := value.value];
        }
      }
      todo := todo - {name};
    }
    r := Ok(out);
  }

  /** Every translated name is a selected prop whose value is truthy, and only
      `<Text>` elements are translated when `onlyTextNodes` is set. */
  lemma TranslatedEntries(selected: map<string, Entry>, intl: Option<IntlContext>, onlyTextNodes: bool, fuel: nat)
    ensures var t := Translations(selected, intl, onlyTextNodes, fuel);
      && (forall k :: k in t ==> k in selected && IsTruthyEntry(selected[k]))
      && (forall k :: k in t && onlyTextNodes ==> selected[k].TextNode?)
      && (forall k :: k in selected && selected[k].TextNode? ==> k in t)
  {
  }

  /** A key entry is translated as `translate(key, intl.scope,
      intl.dictionary)`: no fields, no count, no fallback. */
  lemma KeyEntry(selected: map<string, Entry>, intl: Option<IntlContext>, fuel: nat, name: string, key: string)
    requires name in selected && selected[name] == Id(key) && key != ""
    ensures var t := Translations(selected, intl, false, fuel);
      name in t && t[name] == Translate.Translate(key, ScopeOf(intl), DictionaryOf(intl), None, None, None, None, fuel)
  {
  }

  /** A `<Text>` element with no `fallback` prop falls back to its children;
      with no context at all, that fallback is the result. */
  lemma TextEntryWithoutContext(selected: map<string, Entry>, onlyTextNodes: bool, fuel: nat, name: string,
                                props: TextProps)
    requires name in selected && selected[name] == TextNode(props)
    ensures var t := Translations(selected, None, onlyTextNodes, fuel);
      name in t && t[name] == Ok(if Truthy(FallbackOf(props)) then FallbackOf(props) else None)
  {
    TranslateWithoutDictionary(props.id, None, props.fields, props.plural, FallbackOf(props), fuel);
  }

  /** The plural provider of the context plays no part. */
  lemma ProviderIgnored(selected: map<string, Entry>, intl: IntlContext, provider: Option<Plural.Pluralizer>,
                        onlyTextNodes: bool, fuel: nat)
    ensures Translations(selected, Some(intl), onlyTextNodes, fuel)
         == Translations(selected, Some(intl.(provider := provider)), onlyTextNodes, fuel)
  {
    var other := intl.(provider := provider);
    assert ScopeOf(Some(intl)) == ScopeOf(Some(other)) && DictionaryOf(Some(intl)) == DictionaryOf(Some(other));
  }

  /** The `<Localizer>` example without a dictionary: `<abbr title={<Text
      id="oss-title">Open Source Software</Text>}>` gets the title `Open
      Source Software`. */
  lemma LocalizerFallback(fuel: nat)
    ensures var title := TextNode(TextProps("oss-title", None, None, None, Some(Str("Open Source Software"))));
      Translations(map["title" := title], None, true, fuel) == map["title" := Ok(Some(Str("Open Source Software")))]
  {
    var title := TextNode(TextProps("oss-title", None, None, None, Some(Str("Open Source Software"))));
    TextEntryWithoutContext(map["title" := title], true, fuel, "title", title.props);
  }
}
