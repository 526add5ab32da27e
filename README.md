# preact-i18n translation core in Dafny

This project models how preact-i18n resolves a translation, taken apart from
its Preact bindings. Everything modelled lives in `dist/preact-i18n.esm.js`.
The pieces are:

- `assign` and `deepAssign`: copying properties, and merging a provider's
  `definition` into the dictionary inherited from enclosing providers
  (`merge.dfy`);
- `getChildContext` of `<IntlProvider>`: the `intl` context handed to a
  subtree, without the browser-location test (`context.dfy`);
- `select`: turning `'a.b, c'` or `['a.b', 'c']` into `{b: 'a.b', c: 'c'}`
  (`select.dfy`);
- `template` and `replacer`: filling `{{field.path}}` placeholders, with
  recursive expansion of field values that hold `{{` (`template.dfy`);
- `defaultProvider`: choosing a plural form from an array or from an object
  with category keys (`plural.dfy`);
- `translate`: scope prefix, dot-path lookup, plural form, interpolation,
  then `|| fallback || null` (`translate.dfy`);
- `translateMapping`: translating every selected prop of an element, as
  `<Localizer>` and `withText` do (`mapping.dfy`).

Supporting modules:

- `values.dfy` models JavaScript values as a string, an array or a plain
  object. `undefined` is `None`. Truthiness and `||` are explicit.
- `strings.dfy` models `split`, `trim`, `pop` after `split`, and the `{{`
  test.
- `paths.dfy` defines the dot-path lookup used for dictionary keys and for
  template fields.

The imperative parts of the source are methods whose contracts tie their
results to specification functions:

- `deepAssign`, `select` and the walk in `replacer` are proved equal to
  `Merge.Merge`, `Select.Selected` and `Template.Replacement`.
- `assign` is specified entry by entry: the result holds the keys of both
  objects, the copied value at every key of `props`, and the old value
  elsewhere.
- `translateMapping` is proved equal to the per-entry translations when none
  of them throws. When one does, it throws the error of some failing entry.

The pure expression chains (`defaultProvider`, `translate`, `getChildContext`)
are functions.

Thrown exceptions are values of a `Result` type:

- `TypeError` stands for `.replace` being called on a value that is not a
  string.
- `RangeError` stands for the call stack overflowing. The model bounds the
  recursion depth of `template` with a `fuel` parameter, so running out of
  fuel is the overflow.

Where the documentation and the code disagree, the model follows the code:

- **Scope does not nest the definition.** The doc comments (lines 73, 83-88
  and 312-316) say that `scope` nests `definition` under a root key, so that
  `<IntlProvider scope="weather" definition={{foo: 'Le Feux'}}>` renders
  `Le Feux`. The code (lines 107-113) only sets the scope and merges the
  definition at the root. `Context.ScopeDoesNotNestDefinition` and
  `Context.WeatherExample` prove that this example renders the fallback
  `The Foo`. `Context.ScopedDefinition` proves that the documented output
  appears when the definition is written under the scope's own key.
- **Ancestors win the merge.** The inherited dictionary is the merge target,
  so entries defined higher up the tree take precedence over a nested
  provider's definition. This is what lines 67-69 and 75 describe, and it
  is proved by `Context.AncestorEntriesWin`.
- **A count of 0 never pluralizes.** `translate` calls the pluralizer only
  when `plural` is truthy, so a count of 0 is never pluralized (line 245).
  `defaultProvider` itself does handle 0 (line 215), but `translate` never
  reaches that branch.
- **Scopes do not nest.** The doc comment on `<Text>` (line 290) says that
  keys are looked up within any parent scopes (`$scope1.$scope2.$id`). The
  code (line 108) replaces the inherited scope with the provider's own, so
  only the innermost scope is prefixed. `Context.ScopesDoNotNest` and
  `Context.NestedScopeExample` prove this.
- **Object entries throw.** A dictionary entry that is an object and is not
  turned into a string by plural selection reaches `template`, which throws
  because the object has no `replace` (line 180). The model keeps this error
  and does not invent a fallback.

## Model

| member | source | states |
|---|---|---|
| Strings.SplitPieces | dist/preact-i18n.esm.js:187 | no piece that `split` returns contains the separator |
| Strings.JoinSplit | dist/preact-i18n.esm.js:187 | joining the pieces of `s.split(sep)` with `sep` gives back `s` |
| Strings.SplitJoin | dist/preact-i18n.esm.js:187 | splitting a join of separator-free pieces gives back the pieces |
| Strings.SplitNoSeparator | dist/preact-i18n.esm.js:187 | a string without the separator splits into itself alone |
| Strings.SplitAfterPiece | dist/preact-i18n.esm.js:187 | a separator-free prefix followed by the separator is the first piece, and the rest splits on its own |
| Strings.SplitConcat | dist/preact-i18n.esm.js:242 | `a + sep + b` splits into the pieces of `a` followed by the pieces of `b` |
| Strings.LastPiece | dist/preact-i18n.esm.js:53 | `val.split('.').pop()` is a segment without a dot |
| Strings.TrimIsSlice | dist/preact-i18n.esm.js:52 | `trim()` returns a contiguous slice of the string, with only whitespace cut on either side and no whitespace at its ends |
| Strings.NoBraceNoOpenBraces | dist/preact-i18n.esm.js:194 | a string without `{` never matches `/\{\{/` |
| Paths.LookupAppend | dist/preact-i18n.esm.js:189-192 | walking along `p + q` is walking along `q` from where the walk along `p` ends |
| Paths.ScopedDelve | dist/preact-i18n.esm.js:242-244 | looking up `scope + '.' + key` is looking up `key` in the entry found at `scope` |
| Paths.MissingHead | dist/preact-i18n.esm.js:244 | a key whose first segment is absent from the dictionary resolves to undefined |
| Paths.PlainKey | dist/preact-i18n.esm.js:244 | a key without dots is a single property access |
| Merge.Assign | dist/preact-i18n.esm.js:15-20 | the result has the keys of both objects, the value of `props` at every key of `props`, and the value of `obj` elsewhere |
| Merge.Merge | dist/preact-i18n.esm.js:26-39 | the merge has exactly the keys of `target` plus the own keys of `source`, and where both entries are objects the merged entry is an object with the keys of both |
| Merge.MergeEntries | dist/preact-i18n.esm.js:30-35 | keys only in `target` are kept, keys only in `source` are added, a truthy target entry that is not merged wins, and an empty target string gives way to the source |
| Merge.MergeAt | dist/preact-i18n.esm.js:30-35 | each merged entry is the recursive merge when both entries are objects, and `target[i] \|\| source[i]` otherwise |
| Merge.DeepAssign | dist/preact-i18n.esm.js:26-39 | the key-by-key loop builds exactly the merge `Merge.Merge` describes, so inputs are never changed and the keys and entries are those of the merge |
| Merge.AssignEntry | dist/preact-i18n.esm.js:30-35 | one iteration of the loop stores the entry the merge holds at that key |
| Merge.MergeExample | dist/preact-i18n.esm.js:26-39 | merging `{a: 'theirs', b: 'theirs'}` into `{a: 'mine'}` gives `{a: 'mine', b: 'theirs'}` |
| Merge.MergeKeepsTargetStrings | dist/preact-i18n.esm.js:26-39 | every non-empty string the target holds at any path is still there after the merge, at every depth |
| Merge.MergeFillsUndefined | dist/preact-i18n.esm.js:26-39 | where the target's walk along a path ends at a missing key, the merge holds what the source holds at that path |
| Plural.DefaultProvider | dist/preact-i18n.esm.js:206-223 | no form without a count and an object entry; the form is the entry itself or one of its own forms; an object entry with a count always yields a form |
| Plural.FirstTruthy | dist/preact-i18n.esm.js:221 | the value picked is the default, or the truthy entry of one of the listed keys |
| Plural.ObjectForms | dist/preact-i18n.esm.js:215-221 | for every object and count: `none` for 0 when present; for 1, a truthy `one`, else a present `singular`; otherwise the first truthy of `some`, `many`, `plural`, `other`, else the object itself |
| Plural.GeneralForm | dist/preact-i18n.esm.js:221 | the chain `some \|\| many \|\| plural \|\| other \|\| dict` is the first truthy of those keys, else the object |
| Plural.ArrayForms | dist/preact-i18n.esm.js:212-213 | an array yields the truthy form at the count, else its first form, else nothing |
| Plural.CategoryExamples | dist/preact-i18n.esm.js:215-221 | `{none, one, other}` yields `none` for 0, `one` for 1 and `other` for 5 |
| Plural.ArrayExamples | dist/preact-i18n.esm.js:212-213 | `['zero','one','many']` yields `many` for 2, and `['zero','one']` yields `zero` for 5 |
| Plural.SingularAndPassThrough | dist/preact-i18n.esm.js:218-221 | `singular` stands in for a missing `one`, and an object with no category key for the count is its own form |
| Template.NameRun | dist/preact-i18n.esm.js:180 | the run of `[\w.-]` characters at the start of a string is maximal |
| Template.Placeholder | dist/preact-i18n.esm.js:180 | a match has a non-empty name and fits in the string |
| Template.PlaceholderShape | dist/preact-i18n.esm.js:180 | a match is `{{`, then a name made only of `[\w.-]` characters, then `}}` |
| Template.Template | dist/preact-i18n.esm.js:178-181 | a falsy template comes back unchanged, a non-string object throws `TypeError`, and a successful expansion of a string is a string |
| Template.Replacer | dist/preact-i18n.esm.js:186-198 | the walk over the segments of the field name returns the replacement the expansion uses |
| Template.ExpandNoPlaceholder | dist/preact-i18n.esm.js:178-181 | a string with no placeholder is its own expansion, whatever the fields and the bound |
| Template.NoBracesNoPlaceholder | dist/preact-i18n.esm.js:180 | a string without `{{` contains no placeholder |
| Template.ExpandCopies | dist/preact-i18n.esm.js:180 | a character that starts no placeholder is copied through |
| Template.ExpandLiteral | dist/preact-i18n.esm.js:180 | text without `{` in front of the rest is copied through unchanged |
| Template.ExpandPlaceholder | dist/preact-i18n.esm.js:180 | `{{name}}` followed by the rest becomes the replacement for `name` followed by the expansion of the rest |
| Template.ExpandOnlyOverflows | dist/preact-i18n.esm.js:180 | expanding a string can fail only by overflowing the stack |
| Template.ReplacementOnlyOverflows | dist/preact-i18n.esm.js:186-198 | a replacement can fail only by overflowing the stack |
| Template.ExpandFuelMonotone | dist/preact-i18n.esm.js:193-196 | a completed expansion does not depend on the recursion bound |
| Template.ReplacementFuelMonotone | dist/preact-i18n.esm.js:193-196 | a completed replacement does not depend on the recursion bound |
| Template.SelfReferenceOverflows | dist/preact-i18n.esm.js:193-196 | `{{a}}` with `{a: '{{a}}'}` overflows the stack whatever the bound |
| Template.ExpandPlainFields | dist/preact-i18n.esm.js:186-198 | when no field value holds `{{`, expansion never recurses and always completes |
| Template.SingleField | dist/preact-i18n.esm.js:187-192 | a field name without dots looks up one property of the fields |
| Template.ReplacementOfLookup | dist/preact-i18n.esm.js:186-198 | a missing path gives `''`, a plain string is inserted as it is, and a string holding `{{` is expanded against the same fields |
| Template.SubstituteField | dist/preact-i18n.esm.js:180 | text followed by one placeholder becomes the text followed by the placeholder's replacement |
| Template.AbsentFields | dist/preact-i18n.esm.js:179 | absent fields behave as `{}` |
| Template.FooBar | dist/preact-i18n.esm.js:176 | `template('foo{{bar}}', {bar: 'baz'})` is `'foobaz'` |
| Template.OnlyPlaceholder | dist/preact-i18n.esm.js:180 | a template that is one placeholder becomes that placeholder's replacement |
| Template.MissingField | dist/preact-i18n.esm.js:191 | `{{x}}` with `{}` is the empty string |
| Template.NestedPath | dist/preact-i18n.esm.js:187-192 | `{{a.b}}` with `{a: {b: 'y'}}` is `'y'` |
| Translate.ScopedId | dist/preact-i18n.esm.js:242 | no scope or an empty scope leaves the id alone; otherwise the key's segments are the scope's followed by the id's |
| Translate.Entry | dist/preact-i18n.esm.js:244 | no dictionary gives undefined, and without a scope the entry is the lookup of the id itself |
| Translate.PluralForm | dist/preact-i18n.esm.js:245 | no count or a count of 0 keeps the entry; otherwise the custom pluralizer's truthy answer, else `defaultProvider`'s |
| Translate.Translate | dist/preact-i18n.esm.js:239-248 | a result is never an empty string; a result that is not a string is the fallback; without a truthy fallback, a result implies a truthy form; it throws `TypeError` exactly when the form is a truthy non-string (the value itself, for every input, is stated by `Translate.TranslateResult`) |
| Translate.TranslateResult | dist/preact-i18n.esm.js:245-247 | for every input: a falsy form gives the fallback, else `null`; a string form gives its expansion when that is non-empty, else the fallback, else `null`; a failed expansion is a stack overflow |
| Translate.CountedStringFallsBack | dist/preact-i18n.esm.js:211 | with a non-zero count and the default pluralizer, a plain string entry has no plural form, so the result is the fallback, else `null` |
| Translate.TranslateInScope | dist/preact-i18n.esm.js:242-244 | translating in a scope is translating without one in the sub-dictionary found at the scope |
| Translate.WeatherScope | dist/preact-i18n.esm.js:239-248 | `translate('foo', 'weather', {weather: {foo: 'Le Feux'}}, {}, undefined, 'X')` is `'Le Feux'` |
| Translate.MissingScope | dist/preact-i18n.esm.js:242-244 | a scope whose entry is missing or a string leaves every key in it undefined |
| Translate.TranslateWithoutDictionary | dist/preact-i18n.esm.js:244-247 | with no dictionary the result is the truthy fallback, else `null` |
| Translate.ZeroCountNotPluralized | dist/preact-i18n.esm.js:245 | a count of 0 translates exactly as no count |
| Translate.CustomPluralizerFallsBack | dist/preact-i18n.esm.js:245 | a custom pluralizer that finds nothing hands over to `defaultProvider` |
| Translate.TranslateFoundString | dist/preact-i18n.esm.js:247 | with no count, a non-empty entry without placeholders is the translation, whatever the fallback |
| Translate.MissingKeyFallsBack | dist/preact-i18n.esm.js:247 | with no count, a missing entry gives the truthy fallback, else `null` |
| Translate.EmptyTranslationFallsBack | dist/preact-i18n.esm.js:247 | with no count, an entry that expands to `''` falls through to the fallback as well |
| Translate.ObjectEntryThrows | dist/preact-i18n.esm.js:245-247 | an object entry with no count, or a count of 0, throws `TypeError` |
| Translate.OtherForm | dist/preact-i18n.esm.js:245 | with a count other than 0 and 1, an entry whose only general form is `other` translates to it |
| Translate.TranslateTemplate | dist/preact-i18n.esm.js:247 | with no scope, no count and the default pluralizer, a string entry is filled in from the fields, and a non-empty result is the translation |
| Translate.LeFeuxTemplate | dist/preact-i18n.esm.js:304-308 | `'Le Feux {{bar}}'` with `{bar: 'BEAR'}` fills in to `'Le Feux BEAR'` |
| Translate.LeFeuxBear | dist/preact-i18n.esm.js:304-308 | `<Text id="foo" fields={{bar: 'BEAR'}}>` under `{foo: 'Le Feux {{bar}}'}` renders `'Le Feux BEAR'` |
| Context.ChildContext | dist/preact-i18n.esm.js:99-122 | the scope changes only for a non-empty prop; the dictionary changes only when a definition is given, and then has the keys of both; `mark` is switched on but never off; the provider is always the prop's |
| Context.AncestorEntriesWin | dist/preact-i18n.esm.js:110-113 | every non-empty string the inherited dictionary holds at a key is still held there, whatever the definition says |
| Context.DefinitionFillsGaps | dist/preact-i18n.esm.js:110-113 | where nothing is inherited along a key, the child's dictionary holds the definition's entry |
| Context.ChildTranslatesLikeParent | dist/preact-i18n.esm.js:105-113 | with no count, a provider with no scope translates every key whose inherited entry is a non-empty string exactly as its ancestors do |
| Context.ScopeDoesNotNestDefinition | dist/preact-i18n.esm.js:107-113 | under a top-level provider whose definition has no entry named after its scope, every key falls back |
| Context.WeatherExample | dist/preact-i18n.esm.js:312-316 | the documented `scope="weather"` example with `{foo: 'Le Feux'}` renders its fallback `The Foo` |
| Context.ScopesDoNotNest | dist/preact-i18n.esm.js:108 | under a provider with a scope, keys are looked up under that scope alone, so a dictionary without that scope at its root leaves them untranslated |
| Context.NestedScopeExample | dist/preact-i18n.esm.js:108 | scope `b` inside scope `a` does not reach the `a.b.x` entry of `{a: {b: {x: 't'}}}`, and `<Text id="x">` renders its fallback |
| Context.DefinitionUnderScope | dist/preact-i18n.esm.js:107-113 | a definition written under the scope's own key is what keys in that scope translate from |
| Context.ScopedDefinition | dist/preact-i18n.esm.js:107-113 | with `{weather: {foo: 'Le Feux'}}`, the same `<Text>` renders `Le Feux` |
| Select.Select | dist/preact-i18n.esm.js:44-58 | missing props give `{}`, an object passes through, and a string or array of keys gives the keys picked up in order |
| Select.SelectNamesSpec | dist/preact-i18n.esm.js:50-54 | the prop names are exactly the last dot-segments of the non-empty trimmed keys, each holding the key, and the last of several keys with the same segment wins |
| Select.SelectExample | dist/preact-i18n.esm.js:44-58 | `select('a.b, c')` is `{b: 'a.b', c: 'c'}` |
| Mapping.TranslateMapping | dist/preact-i18n.esm.js:350-373 | when no translation throws, the result holds exactly the translated entries; otherwise it throws what one of them throws |
| Mapping.TranslatedEntries | dist/preact-i18n.esm.js:354-369 | every output name is a selected prop with a truthy value, only `<Text>` elements are translated with `onlyTextNodes`, and every `<Text>` element is translated |
| Mapping.KeyEntry | dist/preact-i18n.esm.js:359-361 | a key is translated with the context's scope and dictionary and no fields, count or fallback |
| Mapping.TextEntryWithoutContext | dist/preact-i18n.esm.js:362-368 | with no context, a `<Text>` element gives its `fallback` prop, else its children |
| Mapping.ProviderIgnored | dist/preact-i18n.esm.js:360-368 | the plural provider in the context plays no part in the output |
| Mapping.LocalizerFallback | dist/preact-i18n.esm.js:390-397 | with no dictionary, `title={<Text id="oss-title">Open Source Software</Text>}` becomes `Open Source Software` |

## Left out

- Preact glue is not modelled because it has no behaviour beyond building elements. This covers:
  - the `IntlProvider` class wiring and `render`;
  - the `intl` higher-order component;
  - `HighlightI18N`;
  - element building in `Text`, `Localizer`, `MarkupText`, `Html` and `withText`;
  - `cloneElement`.
- The `location`/`URL_FLAG` test in `getChildContext` is left out because it reads a browser global. Only the `mark` prop switches marking on.
- `dlv` is a foreign library, so it is replaced by `Paths.Lookup`. The replacement does not step into arrays or strings (no `{{name.length}}`), and it treats any non-object as missing.
- Values are strings, arrays and plain objects only, because the model leaves out `String()` coercion of other field values.
  - A number or boolean field is inserted as its `String()` text by the source. The model has no such values.
  - A `null` at a field path is replaced by `''` at line 191, as a missing one is. The model has no `null`, only missing keys.
  - A count is an integer, so floating-point counts are not modelled.
  - `String()` of a field value covers strings, arrays and objects.
- Properties inherited through the prototype chain are not modelled, because the model has no prototypes. `for…in` is modelled as enumerating own keys.
- `select` treats only arrays as lists, so an object value with a `join` key passes through unchanged. `defaultProvider` likewise treats only arrays as having `splice`.
- A `fallback` prop explicitly set to `undefined` on a `<Text>` element is not distinguished from an absent one, because the model has no explicit `undefined`.
- `Text` with an undefined `id` is not modelled, because an `id` is always a string here.
- Merge.Assign: returns a fresh map instead of updating `obj` in place, because `assign` is only ever called on a freshly built object. Aliasing with `obj` is therefore not modelled.
- Merge.DeepAssign: builds `out` as a map value, for the same reason. It never changes its inputs.
- Template.Template takes `fields` as a parameter instead of writing the module-level `currentFields`. In sequential code this gives the same results.
- Template.Template uses `fuel` as a bound on recursion depth, standing for the JavaScript call stack. Its exact depth limit is not modelled, so an overflow is `RangeError` for every fuel value that runs out.
- Mapping.TranslateMapping does not fix which failing entry's error surfaces, because the model leaves the order of `for…in` open. It only guarantees that the error is one that some entry throws.
- `dist/preact-i18n.umd.js` is a minified copy of the same functions and is not modelled separately.
