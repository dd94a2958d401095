# FrameworkBundle configuration: before-normalization rules and declared schema

This project models the configuration schema of the Symfony FrameworkBundle
(`Configuration::getConfigTree` and its `add*Section` helpers). Two parts
of that file carry behaviour of their own:

- the **before-normalization closures** that rewrite a raw configuration
  value before the Config component checks it: the session section's
  `pdo.` key-prefix stripper, the validation section's relocation of
  `namespace` under `annotations`, the templating section's "one scalar
  becomes a one-element list" rule, and the "element given in attribute form
  is replaced by its `value` / `id` / `namespace` attribute" rule;
- the **declarations** made through the fluent tree builder: node kinds,
  defaults, required and at-least-one-element flags, null/true
  substitutions, `canBeUnset`, `performNoDeepMerging`,
  `useAttributeAsKey`, the singular names given to `fixXmlConfig`, and which
  closure hangs on which node.

PHP values are modelled by `PhpValues.Value`: null, booleans, integers,
strings and ordered arrays. An array is its list of (key, value) entries in
insertion order, with integer or string keys (`Valid` says every nested array
has distinct keys, as PHP arrays do). `Put` is `$a[$k] = $v` (a present key
is overwritten in place, a new key appended), `Remove` is `unset($a[$k])`,
`EmptyAt` is `empty($a[$k])` and `IsSetAt` is `isset($a[$k])`.

Modules, one per concern of the file:

- `PhpValues` (php_values.dfy): values, lookups, assignment and unset.
- `SessionPrefix` (session_prefix.dfy): the `pdo.` stripper, written as the
  `foreach` loop it is. It is proved against `LookupAfter`, a definition that
  does not follow the loop: for each key it names the one or two positions of
  the original array that decide the key's final value. The promised
  behaviour (renaming, overwriting, removal, one pass only) is proved as lemmas
  about that definition.
- `ValidationNamespace` (validation_namespace.dfy): the `namespace` relocation.
- `ElementRules` (element_rules.dfy): scalar-to-list coercion and attribute
  unwrapping.
- `FrameworkSchema` and `FrameworkFacts` (framework_schema.dfy): the
  declarations as a table of `Fact` values. The root's own children form one
  part; each `add*Section` method forms another, written relative to its
  section's node and kept under the section's name, so that the first name of
  a path says which part declares it (`Declares`). `DefaultOf`, `NullLikeOf`
  and `TrueLikeOf` read a node's default and substitutes off the table, and
  `Substitute` applies `treatNullLike` / `treatTrueLike` as declared. The
  lemmas show that each default and substitute the file declares is the only
  one declared for its node, and that no other node declares a substitute.
  The root `cache_warmer` default is the only declaration that depends on the
  `kernelDebug` argument.

## Model

| member | source | states |
|---|---|---|
| PhpValues.Find | src/Symfony/Bundle/FrameworkBundle/DependencyInjection/Configuration.php:228 | `$a[$k]` is None exactly when k is not among the keys, and otherwise a value stored under k |
| PhpValues.Put | src/Symfony/Bundle/FrameworkBundle/DependencyInjection/Configuration.php:118 | after `$a[$k] = $v`, k holds v, every other key holds what it held, the key set gains k, and distinct keys stay distinct |
| PhpValues.PutInPlace | src/Symfony/Bundle/FrameworkBundle/DependencyInjection/Configuration.php:228 | assigning to a key already present replaces the entry at that key's position and leaves every other entry, and the order, as it was |
| PhpValues.PutAppends | src/Symfony/Bundle/FrameworkBundle/DependencyInjection/Configuration.php:118 | assigning to a new key appends it after all existing entries |
| PhpValues.Remove | src/Symfony/Bundle/FrameworkBundle/DependencyInjection/Configuration.php:119 | after `unset($a[$k])`, k is absent, every other key holds what it held, and the key set loses exactly k; unsetting a missing key changes nothing |
| PhpValues.RemoveInPlace | src/Symfony/Bundle/FrameworkBundle/DependencyInjection/Configuration.php:119 | unsetting a present key takes out the entry at its position; the entries before and after it keep their order |
| PhpValues.Empty | src/Symfony/Bundle/FrameworkBundle/DependencyInjection/Configuration.php:226 | `empty()` holds of exactly null, false, 0, "", "0" and the empty array |
| PhpValues.EmptyAt | src/Symfony/Bundle/FrameworkBundle/DependencyInjection/Configuration.php:226 | `empty($a[$k])` holds when k is missing or its value is empty; when it fails, `isset($a[$k])` holds |
| PhpValues.IsSetAt | src/Symfony/Bundle/FrameworkBundle/DependencyInjection/Configuration.php:159 | `isset($a[$k])` holds exactly when k is present and its value is not null |
| SessionPrefix.PrefixCharacterized | src/Symfony/Bundle/FrameworkBundle/DependencyInjection/Configuration.php:117 | `strncmp('pdo.', $key, 4)` accepts exactly the string keys of the form `pdo.` followed by some string |
| SessionPrefix.PrefixRoundTrip | src/Symfony/Bundle/FrameworkBundle/DependencyInjection/Configuration.php:117-118 | adding `pdo.` to a string gives a key the guard accepts, and `substr($key, 4)` gives the string back |
| SessionPrefix.UnprefixRoundTrip | src/Symfony/Bundle/FrameworkBundle/DependencyInjection/Configuration.php:117-118 | every key the guard accepts is `pdo.` followed by its stripped form |
| SessionPrefix.LookupAfter | src/Symfony/Bundle/FrameworkBundle/DependencyInjection/Configuration.php:116-121 | before the loop every key holds its original value; any value a key holds after n steps is the value of some original entry |
| SessionPrefix.RenameStepOld | src/Symfony/Bundle/FrameworkBundle/DependencyInjection/Configuration.php:119 | after visiting `pdo.K`, the key `pdo.K` is unset |
| SessionPrefix.RenameStepNew | src/Symfony/Bundle/FrameworkBundle/DependencyInjection/Configuration.php:118 | after visiting `pdo.K`, K holds that entry's original value, whatever K held before |
| SessionPrefix.RenameStepOther | src/Symfony/Bundle/FrameworkBundle/DependencyInjection/Configuration.php:116-120 | visiting `pdo.K` changes no key other than `pdo.K` and K |
| SessionPrefix.RenameStep | src/Symfony/Bundle/FrameworkBundle/DependencyInjection/Configuration.php:117-120 | the set-then-unset of one loop iteration takes the array from agreeing with the first n entries to agreeing with the first n+1 |
| SessionPrefix.SkipStep | src/Symfony/Bundle/FrameworkBundle/DependencyInjection/Configuration.php:117 | an entry whose key lacks the prefix leaves the array as it is |
| SessionPrefix.StripPdoPrefix | src/Symfony/Bundle/FrameworkBundle/DependencyInjection/Configuration.php:113-123 | a non-array passes through; for an array, every key of the result holds exactly what LookupAfter predicts after all entries; every result key is an original key or an original `pdo.` key minus its first four characters; an array with no `pdo.` key comes back unchanged, order included |
| SessionPrefix.RenamedKeyHoldsValue | src/Symfony/Bundle/FrameworkBundle/DependencyInjection/Configuration.php:116-121 | for an original `pdo.K`, the result maps K to that entry's value, overwriting any earlier K, unless K itself carries the prefix and comes later in the loop |
| SessionPrefix.PrefixedKeyRemoved | src/Symfony/Bundle/FrameworkBundle/DependencyInjection/Configuration.php:116-121 | an original `pdo.K` is absent from the result unless a later original `pdo.pdo.K` recreates it |
| SessionPrefix.PrefixedKeyRecreated | src/Symfony/Bundle/FrameworkBundle/DependencyInjection/Configuration.php:116-121 | a later `pdo.pdo.K` recreates `pdo.K` with its own original value |
| SessionPrefix.PlainKeyKept | src/Symfony/Bundle/FrameworkBundle/DependencyInjection/Configuration.php:116-121 | a key without the prefix that no `pdo.` key renames to keeps its original value (or stays absent) |
| SessionPrefix.NoPrefixedKeys | src/Symfony/Bundle/FrameworkBundle/DependencyInjection/Configuration.php:114-123 | when no key carries the prefix, every key keeps its original value |
| SessionPrefix.DoublePrefixStrippedOnce | src/Symfony/Bundle/FrameworkBundle/DependencyInjection/Configuration.php:116-118 | one pass removes one prefix: `pdo.pdo.x` yields `pdo.x`, and `x` does not appear |
| SessionPrefix.OrderDecidesOverwrites | src/Symfony/Bundle/FrameworkBundle/DependencyInjection/Configuration.php:116-121 | the loop writes original values and key order decides which write survives: `{pdo.pdo.x: a, pdo.x: b}` ends with x = b and no `pdo.x`; the reverse order keeps `pdo.x` = a |
| SessionPrefix.DbTableExample | src/Symfony/Bundle/FrameworkBundle/DependencyInjection/Configuration.php:112-123 | `{pdo.db_table: "sessions"}` becomes `{db_table: "sessions"}` |
| ValidationNamespace.Applies | src/Symfony/Bundle/FrameworkBundle/DependencyInjection/Configuration.php:226 | the guard holds only of an array in which both `annotations` and `namespace` are set |
| ValidationNamespace.MoveNamespace | src/Symfony/Bundle/FrameworkBundle/DependencyInjection/Configuration.php:225-231 | when `annotations` and `namespace` are both non-empty, the result is the assignment of `{namespace: <original namespace>}` to `annotations` followed by the unset of `namespace` (so `annotations` keeps its position and the other entries their order), `namespace` is gone and every other key is untouched; otherwise the value is returned unchanged; the guard never holds of the result |
| ValidationNamespace.XmlFormApplies | src/Symfony/Bundle/FrameworkBundle/DependencyInjection/Configuration.php:226 | the guard fires on `annotations: true` with a namespace and not on `annotations: null` (`empty()` semantics) |
| ElementRules.WrapNonArray | src/Symfony/Bundle/FrameworkBundle/DependencyInjection/Configuration.php:153-156 | a non-array v becomes the list whose only key is 0, holding v; an array passes through unchanged (same rule at lines 170-173 and 183-186) |
| ElementRules.WrapIdempotent | src/Symfony/Bundle/FrameworkBundle/DependencyInjection/Configuration.php:154-155 | wrapping twice equals wrapping once |
| ElementRules.Unwrap | src/Symfony/Bundle/FrameworkBundle/DependencyInjection/Configuration.php:158-161 | an array whose field is set to a non-null value is replaced by that value; anything else passes through (same rule with `id` at 175-178, `value` at 197-200, `namespace` at 242-245) |
| ElementRules.EngineForms | src/Symfony/Bundle/FrameworkBundle/DependencyInjection/Configuration.php:175-178 | `<engine id="twig"/>` and the bare `twig` both give the engine name `twig` |
| ElementRules.NullFieldNotUnwrapped | src/Symfony/Bundle/FrameworkBundle/DependencyInjection/Configuration.php:159 | a field present but null is not set, so nothing is unwrapped |
| FrameworkSchema.Substitute | src/Symfony/Bundle/FrameworkBundle/DependencyInjection/Configuration.php:53-54 | a raw value given for a node changes only from null or true, and only into a substitute the table declares for that node |
| FrameworkFacts.RootReachable | src/Symfony/Bundle/FrameworkBundle/DependencyInjection/Configuration.php:21-35 | every declaration getConfigTree makes on the root's own children is a declaration of the table |
| FrameworkFacts.DefaultDeclared | src/Symfony/Bundle/FrameworkBundle/DependencyInjection/Configuration.php:79-83 | a default that its section declares once for a path is the table's one default for that path: no other declaration anywhere gives it another |
| FrameworkFacts.NullLikeDeclared | src/Symfony/Bundle/FrameworkBundle/DependencyInjection/Configuration.php:53 | a null substitute its section declares once for a path is the table's one null substitute for it |
| FrameworkFacts.TrueLikeDeclared | src/Symfony/Bundle/FrameworkBundle/DependencyInjection/Configuration.php:54 | a true substitute its section declares once for a path is the table's one true substitute for it |
| FrameworkFacts.RootDefault | src/Symfony/Bundle/FrameworkBundle/DependencyInjection/Configuration.php:27 | root `cache_warmer` has the one default `!kernelDebug` |
| FrameworkFacts.DebugFlagOnlyChangesCacheWarmer | src/Symfony/Bundle/FrameworkBundle/DependencyInjection/Configuration.php:21-45 | apart from the two possible `cache_warmer` defaults, the tables built with debug on and off declare the same facts |
| FrameworkFacts.ProfilerSectionDefaults | src/Symfony/Bundle/FrameworkBundle/DependencyInjection/Configuration.php:79-83 | the profiler section declares exactly one default for each of only_exceptions, dsn, username, password and lifetime |
| FrameworkFacts.ProfilerDefaults | src/Symfony/Bundle/FrameworkBundle/DependencyInjection/Configuration.php:79-83 | profiler defaults: only_exceptions false, dsn `sqlite:%kernel.cache_dir%/profiler.db`, username and password empty, lifetime 86400 |
| FrameworkFacts.SessionDefault | src/Symfony/Bundle/FrameworkBundle/DependencyInjection/Configuration.php:128 | session storage_id defaults to `native` |
| FrameworkFacts.PackageVersionDefault | src/Symfony/Bundle/FrameworkBundle/DependencyInjection/Configuration.php:193 | a package's version defaults to null |
| FrameworkFacts.TranslatorDefault | src/Symfony/Bundle/FrameworkBundle/DependencyInjection/Configuration.php:213 | translator enabled defaults to true |
| FrameworkFacts.RouterResourceRequired | src/Symfony/Bundle/FrameworkBundle/DependencyInjection/Configuration.php:101 | router.resource is required |
| FrameworkFacts.EnginesRequired | src/Symfony/Bundle/FrameworkBundle/DependencyInjection/Configuration.php:167-169 | templating.engines is required and must have at least one element |
| FrameworkFacts.CsrfProtectionSubstitutes | src/Symfony/Bundle/FrameworkBundle/DependencyInjection/Configuration.php:48-60 | addCsrfProtectionSection declares null/true substitutes on its own node only |
| FrameworkFacts.EsiSubstitutes | src/Symfony/Bundle/FrameworkBundle/DependencyInjection/Configuration.php:62-72 | addEsiSection declares null/true substitutes on its own node only |
| FrameworkFacts.ProfilerSubstitutes | src/Symfony/Bundle/FrameworkBundle/DependencyInjection/Configuration.php:74-93 | addProfilerSection declares no null/true substitute |
| FrameworkFacts.RouterSubstitutes | src/Symfony/Bundle/FrameworkBundle/DependencyInjection/Configuration.php:95-105 | addRouterSection declares no null/true substitute |
| FrameworkFacts.SessionSubstitutes | src/Symfony/Bundle/FrameworkBundle/DependencyInjection/Configuration.php:107-143 | addSessionSection declares no null/true substitute |
| FrameworkFacts.TemplatingSubstitutes | src/Symfony/Bundle/FrameworkBundle/DependencyInjection/Configuration.php:145-206 | addTemplatingSection declares no null/true substitute |
| FrameworkFacts.TranslatorSubstitutes | src/Symfony/Bundle/FrameworkBundle/DependencyInjection/Configuration.php:208-217 | addTranslatorSection declares no null/true substitute |
| FrameworkFacts.ValidationSubstitutes | src/Symfony/Bundle/FrameworkBundle/DependencyInjection/Configuration.php:219-251 | addValidationSection declares null/true substitutes on `annotations` only |
| FrameworkFacts.SectionSubstitutes | src/Symfony/Bundle/FrameworkBundle/DependencyInjection/Configuration.php:36-43 | within the section added under a name, substitutes sit only at that section's substituting paths |
| FrameworkFacts.SchemaSubstitutesOnly | src/Symfony/Bundle/FrameworkBundle/DependencyInjection/Configuration.php:21-251 | in the whole table, only csrf_protection, esi and validation.annotations declare null or true substitutes |
| FrameworkFacts.CsrfProtectionSubstitution | src/Symfony/Bundle/FrameworkBundle/DependencyInjection/Configuration.php:53-54 | csrf_protection given null or true means `{enabled: true}`; an explicit array is kept |
| FrameworkFacts.EsiSubstitution | src/Symfony/Bundle/FrameworkBundle/DependencyInjection/Configuration.php:67-68 | esi given null or true means `{enabled: true}` |
| FrameworkFacts.AnnotationsSubstitution | src/Symfony/Bundle/FrameworkBundle/DependencyInjection/Configuration.php:236-237 | validation.annotations given null or true means the empty array |
| FrameworkFacts.UndeclaredSubstitutionKeepsValue | src/Symfony/Bundle/FrameworkBundle/DependencyInjection/Configuration.php:21-251 | every other node takes any raw value, null and true included, as it is |
| FrameworkFacts.SessionRule | src/Symfony/Bundle/FrameworkBundle/DependencyInjection/Configuration.php:113-123 | the `pdo.` stripper runs before normalization of `session` |
| FrameworkFacts.TemplatingRules | src/Symfony/Bundle/FrameworkBundle/DependencyInjection/Configuration.php:151-200 | scalar-to-list on assets_base_urls, engines and loaders; unwrapping of `value` / `id` / `value` on the elements of assets_base_urls, engines and package base_urls |
| FrameworkFacts.ValidationRules | src/Symfony/Bundle/FrameworkBundle/DependencyInjection/Configuration.php:225-245 | the namespace relocation runs on `validation`; unwrapping of `namespace` on the elements of annotations.namespaces |
| FrameworkFacts.EngineListForms | src/Symfony/Bundle/FrameworkBundle/DependencyInjection/Configuration.php:166-178 | `engines: twig` becomes `[twig]`, `[twig, php]` and `[]` pass through, `<engine id="twig"/>` becomes `twig` |

## Left out

- src/Symfony/Bundle/SecurityBundle/ResponseListener.php: when the request carries the remember-me cookie attribute, it sets that cookie on the response; all of its behaviour lives in HTTP, event and remember-me objects outside this model.
- The Config component's engine (TreeBuilder, NodeBuilder, buildTree, normalization, merging, type checks) is not part of this model. Node kinds, `canBeUnset`, `performNoDeepMerging`, `useAttributeAsKey`, `fixXmlConfig` and prototypes are recorded as declared facts only; the plural node name that `fixXmlConfig` derives from the singular is not recorded. Which order the engine runs substitutions and closures in is not modelled, and neither is the rejection of a missing `router.resource` or an empty `engines` list. `Substitute` models only what a declared `treatNullLike` / `treatTrueLike` does to one raw value.
- Numeric string keys: PHP stores `$v["5"]` under the integer key 5, so `pdo.5` would strip to the integer key 5; the model keeps the string key `"5"`.
- The bare key `pdo.`: `substr('pdo.', 4)` is `""` from PHP 7.0 on, and `false` in PHP 5, which PHP stores under the key 0; the model strips it to the empty string.
- PHP loose typing beyond null, booleans, integers, strings and arrays (floats, objects) is not modelled; `empty()` and `isset()` are modelled for these kinds only.
- SessionPrefix.StripPdoPrefix: the order of the result's keys is stated only when no key carries the prefix; otherwise the result is stated key by key, as a map.
