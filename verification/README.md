# serverless-import-swagger: the conversion core in Dafny

This project models `src/convert-swagger-to-configs.js`, the pure part of
serverless-import-swagger. The converter takes parsed API documents and
produces one serverless config object per service. It runs in five stages.

1. **Flatten.** Each path item becomes `(path, method, operation)`
   descriptors. There is one per property key not starting with `_`, with
   the method lower-cased. With `optionsMethod` set, one extra `options`
   descriptor is added when some key is not `get`.
2. **Filter.** A descriptor is kept when some tag of its operation starts
   with `apiPrefix`.
3. **Name.** Each kept descriptor gets two names.
   - The service name comes from the first matching tag.
   - The function name comes from either the `operationId` or the HTTP
     method and the path template. In the second case it is the method, then
     the pascal-cased last run of literal segments (the resources), then one
     abbreviated token per `{param}` segment (the conditions).
4. **Build.** Each descriptor becomes a one-function config fragment whose
   `http` event carries these:
   - the path, rewritten under `basePath`;
   - the required path parameters;
   - CORS;
   - the authorizer.
5. **Merge.** Fragments are grouped by service in first-seen order, and
   their function maps are deep-merged.

Modules, one per stage plus support:

- `Seqs`: `filter`, `some`, `map` and `join('')` on sequences.
- `JsStrings`: the JavaScript string built-ins the converter calls.
- `Swagger`: the data model for operations, options, descriptors, events and
  configs.
- `Definitions`: flattening and the tag filter.
- `Naming`: the service name and the function name.
  - Segments are `Literal(text) | Param(name)`.
  - The resource reduction is modelled as the source's left-to-right fold.
    It is proved equal to an independent definition, the last maximal run of
    literals.
- `Events`: the parameters, the event path and the per-descriptor config.
- `Merge`: `mergeConfigs`, with `deepmerge` on function maps.
- `Convert`: the exported composition and its end-to-end properties.
- `Scenarios`: worked examples on concrete paths, tags, parameters and
  fragments.

The three `change-case` functions are fields of a `CaseConversions` value.
Nothing is assumed about them in general. The worked examples state the
results they rely on as preconditions, for instance
`dotCase("orderId") == "order.id"`.

Three consequences of the naming code, proved on concrete paths:

- `get /users/{userId}/orders/{orderStatus}` is named
  `getOrdersWithUseIdOrdSta`. The three-character cut applies to each
  dot-case piece of a parameter name.
- `post /orders/{orderId}/items` is named `postItemsWithOrdId`. A literal
  after a parameter restarts the resources, and the resources always come
  before the conditions.
- `/orders/{id}` keeps `Orders` as its resource. The fold keeps the last
  maximal run of literals, even when parameters follow it.

## Model

| member | source | states |
|---|---|---|
| Definitions.MethodEntries | src/convert-swagger-to-configs.js:18 | the method entries are exactly the path-item entries whose key does not start with `_` |
| Definitions.MethodEntriesAppend | src/convert-swagger-to-configs.js:18-19 | the key filter works entry by entry in key order: appending an entry appends it to the method list exactly when its key does not start with `_` |
| Definitions.PathItemDefinitionsSpec | src/convert-swagger-to-configs.js:16-36 | one descriptor per method entry, in order, with the same path, the lower-cased method and the entry's operation; one extra descriptor exactly when `optionsMethod` is set and some method is not `get`; that extra one has method `options`, the same path, and the operation of the first non-`get` method |
| Definitions.DefinitionsAppend | src/convert-swagger-to-configs.js:12-41 | flattening distributes over concatenation of the document list, so descriptors come in document order |
| Definitions.ItemsDefinitionsCount | src/convert-swagger-to-configs.js:16-26 | without `optionsMethod` there is exactly one descriptor per method key |
| Definitions.IsTargetIffPrefixedTag | src/convert-swagger-to-configs.js:43-49 | an operation is a target iff it has tags and one of them has `apiPrefix` as a prefix |
| Definitions.IsTargetEdgeCases | src/convert-swagger-to-configs.js:44-48 | undefined tags and an empty tag list are never targets; an empty prefix matches any non-empty tag list |
| Definitions.Targets | src/convert-swagger-to-configs.js:8 | the kept descriptors are exactly the input descriptors that are targets |
| JsStrings.IndexOfZeroIsPrefix | src/convert-swagger-to-configs.js:48 | `indexOf(p) === 0` holds iff `p` is a prefix of the string |
| Naming.Classify | src/convert-swagger-to-configs.js:121 | a segment is a parameter iff its text matches `/^\{.*\}$/`, with line terminators excluded inside the braces; a literal keeps the text, and a parameter's text is its name inside braces |
| Naming.ResourcesIsLastLiteralRun | src/convert-swagger-to-configs.js:120-130 | the source's fold (a literal restarts the list after a parameter, otherwise is appended; parameters are skipped) computes the last maximal run of literal segments |
| Naming.LastLiteralRunSpec | src/convert-swagger-to-configs.js:120-130 | the resources are the texts of a run `i..j` of literals that is preceded by a parameter or the start and followed only by parameters; the run is empty only when every segment is a parameter |
| Naming.ResourcesAreLiterals | src/convert-swagger-to-configs.js:120-131 | every resource is the text of a literal segment of the path; no parameter is a resource |
| Naming.ParamFilterKeepsResources | src/convert-swagger-to-configs.js:131 | the parameter filter after the reduction removes nothing |
| Naming.ParamNamesAreParamSegments | src/convert-swagger-to-configs.js:137-139 | the parameter names are the names inside the braces of the parameter segments, one each, in path order |
| Naming.ConditionsPerParamSegment | src/convert-swagger-to-configs.js:134-144 | one condition per parameter segment of the unfiltered path, in order, each the abbreviation of its name; only the first starts with `With` |
| Naming.FunctionName | src/convert-swagger-to-configs.js:109-147 | with the `operationId` option and a string id, the id verbatim; otherwise method, then pascal-cased last literal run of the segments (first one dropped under `basePath`), then the conditions of the whole path, with no separators |
| Naming.ServiceName | src/convert-swagger-to-configs.js:102-107 | the name comes from the first tag with `apiPrefix` as a prefix: the tag less `apiPrefix.length + 1` characters, param-cased, behind `servicePrefix-` exactly when the service prefix is set |
| Naming.ServiceNameIgnoresLaterTags | src/convert-swagger-to-configs.js:103 | tags after the first matching one do not change the service name |
| Naming.MatchingTagsKeepFirst | src/convert-swagger-to-configs.js:103 | appending tags keeps the first tag that matches `apiPrefix` |
| Naming.MatchingTagsSkipFront | src/convert-swagger-to-configs.js:103 | tags in front that do not match `apiPrefix` are skipped by the tag search |
| Naming.ServiceNameSkipsUnmatchedTags | src/convert-swagger-to-configs.js:103 | non-matching tags put in front do not change the service name |
| Events.CollectPathParams | src/convert-swagger-to-configs.js:156-167 | the collected keys are distinct and are exactly the names of the required path parameters; the counter is zero iff there is none |
| Events.ExtractParameters | src/convert-swagger-to-configs.js:149-175 | `null` iff no parameter is a required path parameter; otherwise the keys are distinct and are exactly those parameters' names |
| Events.EventPathDropsFirstSegment | src/convert-swagger-to-configs.js:63-69 | under `basePath` the first segment goes, the rest of the path is kept verbatim, and a one-segment path becomes `/` |
| Events.DefinitionToConfig | src/convert-swagger-to-configs.js:51-100 | one function, keyed by the `functionName` option when set, else by the derived name; handler `handler.<key>`; one `lambda-proxy` event with the descriptor's method, the rewritten path, the extracted parameters, CORS iff `cors` or (`optionsMethod` and method `get`), and the authorizer copied |
| Events.BasePathDropsSameSegment | src/convert-swagger-to-configs.js:64-66 | on a well-formed template the event path under `basePath` has exactly the segments the function name keeps |
| Merge.MergeEntry | src/convert-swagger-to-configs.js:186 | merging one function: a new key is appended, an existing key keeps its place and gets the new handler and its events extended, and other keys are untouched |
| Merge.DeepMergeKeys | src/convert-swagger-to-configs.js:186 | `deepmerge` unions the keys |
| Merge.DeepMergeEvents | src/convert-swagger-to-configs.js:186 | `deepmerge` appends the source's events after the accumulator's, per key |
| Merge.DeepMergeHandlers | src/convert-swagger-to-configs.js:186 | `deepmerge` keeps every handler equal to `handler.<key>` |
| Merge.ServiceNames | src/convert-swagger-to-configs.js:178-179 | the service names are distinct, are exactly the input's services, and come in first-seen order |
| Merge.ServiceFunctionsKeys | src/convert-swagger-to-configs.js:184-188 | a service's merged keys are the union of its fragments' keys |
| Merge.ServiceFunctionsEvents | src/convert-swagger-to-configs.js:184-188 | a merged function's events are those of every fragment of its service, concatenated in input order |
| Merge.MergeConfigs | src/convert-swagger-to-configs.js:177-192 | one entry per first-seen service name, holding that service's merged functions |
| Merge.MergeConfigsDistinct | src/convert-swagger-to-configs.js:178-181 | no service appears twice in the output |
| Merge.MergeConfigsCover | src/convert-swagger-to-configs.js:177-192 | every input service has an output entry, and every output entry's service occurs in the input |
| Merge.MergeConfigsOrder | src/convert-swagger-to-configs.js:178-181 | output entries are ordered by the first fragment of their service |
| Merge.MergedServiceFunctions | src/convert-swagger-to-configs.js:182-188 | each output entry has distinct keys, the union of its fragments' keys, each function's events in input order, and handlers that still match their keys |
| Convert.Fragments | src/convert-swagger-to-configs.js:9 | one fragment per target descriptor, in order, each with distinct function keys |
| Convert.TargetDefinitions | src/convert-swagger-to-configs.js:7-8 | every descriptor handed on to the config stage is a target |
| Convert.ConvertServices | src/convert-swagger-to-configs.js:6-10 | the output has a config for service `s` iff some target descriptor's service name is `s` |
| Convert.FragmentServices | src/convert-swagger-to-configs.js:9-10 | merging the fragments of target descriptors gives a config for service `s` iff some descriptor's service name is `s` |
| Convert.FragmentKey | src/convert-swagger-to-configs.js:9 | the fragment of one descriptor has that descriptor's service name and exactly one key, the chosen function name |
| Convert.ConvertFunctionKeys | src/convert-swagger-to-configs.js:6-10 | a service's function keys are exactly the chosen function names of its target descriptors |
| Convert.FunctionNameOverrideCollapses | src/convert-swagger-to-configs.js:55-56 | with the `functionName` option set, each service has exactly that one function, with handler `handler.<functionName>`, carrying the events of all the service's target descriptors in input order |
| Scenarios.AbbreviateTwoPieces | src/convert-swagger-to-configs.js:139-142 | a parameter whose dot-case form is `a.b` abbreviates to the pascal-cased first three characters of `a` followed by those of `b` |
| Scenarios.TwoConditions | src/convert-swagger-to-configs.js:138-144 | with two parameters, the conditions join to `With` plus both abbreviations |
| Scenarios.OrderItemsName | src/convert-swagger-to-configs.js:109-147 | `post /orders/{orderId}/items` is named `postItemsWithOrdId` |
| Scenarios.UserOrdersName | src/convert-swagger-to-configs.js:109-147 | `get /users/{userId}/orders/{orderStatus}` is named `getOrdersWithUseIdOrdSta` |
| Scenarios.OrdersIdResources | src/convert-swagger-to-configs.js:116-131 | `/orders/{id}` has the resource `orders`, and the empty run after the parameter is not the last run |
| Scenarios.UsersServiceName | src/convert-swagger-to-configs.js:102-107 | tag `api-Users` under prefix `api` is a target and names service `users`, or `svc-users` under service prefix `svc` |
| Scenarios.RequestParametersExample | src/convert-swagger-to-configs.js:158-174 | of a required path parameter, a required query parameter and an optional path parameter, only the first becomes a request parameter; without it the result is `null` |
| Scenarios.MergeExample | src/convert-swagger-to-configs.js:177-192 | fragments `users`, `orders`, `users` merge into `users` then `orders`, the `users` function carrying both events in order |

## Left out

- Loading documents: the directory scan, YAML parsing, the parser library
  and the promise chain of `lib/load-swagger.js` are I/O. The model starts
  from the parsed documents as sequences of path items.
- `change-case`: `paramCase`, `dotCase` and `pascalCase` are arbitrary
  functions passed in. Nothing about their behaviour is modelled.
- `deepmerge` in general: it is modelled only on function maps whose values
  are `{handler, events}`. Keys are unioned, `events` arrays are
  concatenated, and the later `handler` string wins.
- Key enumeration order: JavaScript object keys are taken in the order the
  path item lists them. Function maps are association lists with distinct
  keys, in insertion order.
- The authorizer: its value is an opaque type and is copied as is. Any
  truthy value is `Some`.
- `toLowerCase`: it is modelled on ASCII letters only. HTTP method keys are
  ASCII.
- Naming.ServiceName: the source throws a `TypeError` when no tag matches.
  The model requires `IsTarget` instead, which the pipeline's filter
  guarantees.
- Absent `parameters` is modelled as the empty list, because the source
  skips both alike. A non-string `operationId` is modelled as absent, as the
  `typeof` test treats it.
- The `cors` and `request` keys are optional in the source. They are
  modelled as a boolean that is false when the key is absent and as an
  `Option`, respectively.
- The `paths` object of the request parameters maps each key to `true`. It
  is modelled as its list of keys.
- Events.BasePathDropsSameSegment: it covers well-formed templates only.
  The event path drops the first raw piece after the leading character,
  while the function name drops the first non-empty segment. On a path such
  as `//a/b` the two differ.
- JsStrings.Drop and JsStrings.Take: they count Unicode scalar values, while
  JavaScript's `slice` counts UTF-16 code units. The two agree on text in the
  Basic Multilingual Plane. A tag or parameter name holding a character
  outside it is cut at a different place than the source cuts it, at lines
  104 and 141.
