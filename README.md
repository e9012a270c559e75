# grunt-raml-prerender, the normalisation pipeline in Dafny

The `ramlprerender` grunt task loads a RAML API description and turns its tree into a
display-ready JSON document. This project models the in-memory part of that pipeline
(`tasks/ramlprerender.js`) and proves its properties:

- **pruning** (`omitUndesired`): the keys `structuredExample` and `structuredValue` are removed
  at any depth;
- **flattening** (`unnest`): the nested resource tree becomes one list, prepended to one
  resource at a time. The list is therefore the reverse of a post-order walk. Each resource gets
  the concatenated path of its ancestors. Descriptions (joined with `<hr>`) and URI parameters
  (merged with `_.extend`) are pushed down, and `resources` and `relativeUriPathSegments` are
  deleted;
- **type resolution** (`inheritProperties`, `convertType`, `convertProperties`, `convertBodyFn`):
  - named types are expanded at each use with `_.defaults`;
  - properties are inherited through the first parent type only;
  - type and item name lists are joined with `", "`;
  - item names are resolved to inline definitions;
  - descriptions and examples are rendered;
  - a JSON schema is parsed, its description hoisted, and the schema re-serialised;
- **formatting** (`formatForDisplay`): the `types` list is reduced to a table and the document,
  its resources, methods, parameters, bodies and responses are converted; URI parameters are
  flagged `uri = true`, and `types` is deleted;
- **format dispatch** (`beautify`, `parseJsonSchema`);
- **the per-document control flow** of `processOneRamlFile`: the validation gate and its
  message, the stage order prune → unnest → format, and the message a formatting failure is
  wrapped in. The walk over the task's files, which stops at the first error, is modelled as
  well.

The JavaScript mutates one object tree in place. The model has value semantics: each stage is
a function from the old tree to the new one. Each loop the source writes out (`forEach`,
`forOwn`, `_.reduce`, `forEachSeries`, and the recursion of `inheritProperties` and `unnest`)
is also a method with a loop, whose `ensures` ties its result to that function. The library
search `errors().find` is modelled by the function `Pipeline.FirstError` alone.

- **Objects** are ordered member lists. The iteration order decides which failure is reported
  first, and `_.keys(value)[0]` picks the first key.
- **Record fields** the pipeline never names are kept in an `other` list.
- **Stack depth** is a `fuel` parameter, which stands for the engine's call stack. Running out
  gives the engine's `RangeError`, as a cyclic type graph does in the source.
- **Library calls** are fields of an `Env` record: showdown's `makeHtml`, pretty-data's printers
  (`None` when the printer throws), `JSON.parse`, js-yaml's `safeLoad` and `JSON.stringify`.
  They are uninterpreted.
- **A `null` format** is modelled as the empty string. Both are falsy, so `convertType` treats
  them the same way.

Modules: `Wrappers` (Option, Result), `Objects` (members, `_.defaults`, `_.extend`), `Text`
(substring search, join, decimal rendering), `JsonValues`, `Raml` (the record types),
`Formats`, `Pruner`, `Flattener`, `TypeResolver`, `Formatter`, `Pipeline`.

## Model

| member | source | states |
|---|---|---|
| Objects.Defaults | tasks/ramlprerender.js:64 | `_.defaults`: the target's members stay as a prefix; a key resolves to the target's value if it has one, else to the source's |
| Objects.ExtendLookup | tasks/ramlprerender.js:198 | `_.extend`: on a name conflict the source object's value wins; other keys of the target survive |
| Objects.Set | tasks/ramlprerender.js:136 | assigning a key makes it resolve to the new value and leaves every other key as it was |
| Objects.Remove | tasks/ramlprerender.js:124 | `delete`: the key no longer resolves; every other key is unchanged |
| Text.IndexOf | tasks/ramlprerender.js:48 | `indexOf` is -1 exactly when the pattern occurs nowhere; otherwise it is the first position where it occurs |
| Text.Contains | tasks/ramlprerender.js:32-35 | a regex test for a literal word holds exactly when the word occurs at some position |
| Text.JoinShowsParts | tasks/ramlprerender.js:90 | every part of a joined list occurs in the joined string |
| Text.NatToStringRoundTrip | tasks/ramlprerender.js:225 | the line number written into the validation message reads back as that number |
| Formats.Beautify | tasks/ramlprerender.js:30-43 | a format containing `xml` uses the XML printer, even if it also contains `json`. Otherwise one containing `json` uses the JSON printer, and any other format returns the data. A printer that throws gives the data back unchanged |
| Formats.ParseJsonSchema | tasks/ramlprerender.js:46-53 | a string containing `"$schema"` goes to the JSON parser and any other string to the YAML parser; parser errors become failures; a non-string without `indexOf` throws a TypeError |
| Pruner.Omit | tasks/ramlprerender.js:25-27 | one object loses exactly its undesired keys; every other key keeps its value; an object without them is unchanged |
| Pruner.OmitUndesired | tasks/ramlprerender.js:25-27 | no `structuredExample` or `structuredValue` key is left anywhere in the document |
| Pruner.OmitUndesiredFixed | tasks/ramlprerender.js:25-27 | a document without undesired keys is returned unchanged |
| Pruner.PruneJsonKeeps | tasks/ramlprerender.js:25-27 | a JSON object keeps every key that is not undesired, with its value pruned; an array keeps every element in order, pruned; other values are untouched |
| Pruner.PruneParamsKeeps | tasks/ramlprerender.js:25-27 | a keyed collection of types (parameters, bodies, one entry of `types`) keeps every key that is not undesired, with its type pruned |
| Pruner.PruneTypeKeeps | tasks/ramlprerender.js:25-27 | a type keeps its kind, `type` and description; its properties keep every name that is not undesired; its items, examples, payloads and other keys are kept, pruned |
| Pruner.PruneResponsesKeeps | tasks/ramlprerender.js:25-27 | a responses object keeps every status code that is not undesired; a `null` response stays `null` and the others are pruned |
| Pruner.PruneMethodKeeps | tasks/ramlprerender.js:25-27 | a method keeps its description; its query parameters, bodies, responses and other keys keep everything but the undesired keys, pruned |
| Pruner.PruneResourceKeeps | tasks/ramlprerender.js:25-27 | a resource keeps its path and description and every method and child in order, pruned; its URI parameters and other keys keep everything but the undesired keys |
| Pruner.OmitUndesiredKeeps | tasks/ramlprerender.js:242 | only the undesired keys are removed from a document: every documentation section, resource and entry of `types` is kept in order, and every key that is not undesired keeps its value, pruned |
| Pruner.OmitUndesiredIdempotent | tasks/ramlprerender.js:25-27 | pruning twice is pruning once |
| Flattener.Unnest | tasks/ramlprerender.js:191-206 | the prepending loop returns the reverse of the post-order rewrite of the tree, followed by the list it was given |
| Flattener.FlattenedResources | tasks/ramlprerender.js:191-206 | top-level `unnest(resources, [], '')` returns one resource per node of the tree, in reverse post-order, each being the last node of a root-to-node path. Its `relativeUri` is the concatenation of that path's segments, root first, and it has no `resources` or `relativeUriPathSegments` |
| Flattener.PostOrderFromChains | tasks/ramlprerender.js:191-206 | the i-th rewritten resource is the last node of the i-th root-to-node chain with the chain's path, description and parameters pushed down |
| Flattener.ChainsCount | tasks/ramlprerender.js:192 | there are as many root-to-node chains as there are nodes in the tree |
| Flattener.ChainPerNode | tasks/ramlprerender.js:192-205 | each node ends exactly one chain: the chains correspond one to one to the index paths of the nodes, every node has one, no two chains share one, and each chain is the list of resources from the top level down to its node |
| Flattener.ChainsArePaths | tasks/ramlprerender.js:201 | every chain starts at a top-level resource and descends through `resources` |
| Flattener.DescriptionClosedForm | tasks/ramlprerender.js:194-196 | a flattened resource's description is its own, then each non-empty description above it (nearest first), joined by `<hr>`; with nothing above, its own is kept unchanged |
| Flattener.InheritedParameterWins | tasks/ramlprerender.js:197-199 | each URI parameter name resolves to the entry of the topmost ancestor that declares it; a resource has no parameter object exactly when neither it nor any ancestor had one |
| Flattener.FlattenExample | tasks/ramlprerender.js:191-206 | `[A{resources: [A1]}, B]` flattens to the paths `/b`, `/a`, `/a/1` in that order |
| TypeResolver.FirstTypeKey | tasks/ramlprerender.js:67 | reading `type[0]` fails exactly when `type` is absent, and a non-empty name list gives its first name |
| TypeResolver.AdoptProperties | tasks/ramlprerender.js:60-66 | a type without properties adopts the base's map; one with properties keeps its own members first and gets each missing name from the base |
| TypeResolver.InheritProperties | tasks/ramlprerender.js:56-68 | the loop over the chain of first parents computes what the recursive `inheritProperties` does, and changes only the properties |
| TypeResolver.InheritFromChain | tasks/ramlprerender.js:56-68 | inheritance fails exactly when walking the chain of first parents fails, and with the same error. The type ends with properties exactly when it or an ancestor has them. Each name resolves to its nearest declaration, so a name the type declares keeps its own definition. The type's own members keep their places |
| TypeResolver.InheritFuel | tasks/ramlprerender.js:67 | a result reached with some stack depth is the same with any larger one |
| TypeResolver.CyclicInheritanceOverflows | tasks/ramlprerender.js:67 | on a cycle of first parents the recursion overflows the stack, whatever its depth |
| TypeResolver.MoveInlineSchema | tasks/ramlprerender.js:74-77 | only `schema` and `type` can change; a type that is not inline JSON or XML, or has a truthy schema, is unchanged; afterwards no inline type keeps its definition in `type` without a schema; a definition that moves ends up in `schema` |
| TypeResolver.FillMissing | tasks/ramlprerender.js:82 | `_.defaults(type, base)`: each field the occurrence has is kept and each missing one comes from the base, down to the unnamed keys |
| TypeResolver.ExpandStep | tasks/ramlprerender.js:78-84 | only a type expression is expanded; one without `type` fails; the occurrence's own keys stay first |
| TypeResolver.ExpansionKeepsOwnFields | tasks/ramlprerender.js:78-84 | a type expression keeps every field it has, and its properties as a prefix; each missing field comes from the global type its first name refers to; an unknown name changes nothing |
| TypeResolver.JoinTypeRef | tasks/ramlprerender.js:89-91 | no list of type names is left; a single name is shown as itself and every name of a list shows in the joined string; a string or an absent `type` is unchanged |
| TypeResolver.ExampleValue | tasks/ramlprerender.js:113 | without a format the value is untouched; otherwise it is the pretty-printed value when that is truthy, else the original |
| TypeResolver.ConvertExample | tasks/ramlprerender.js:112-113 | an example keeps its unnamed keys; a truthy description is rendered and a falsy one kept; an absent value stays absent, a value is untouched without a format, and a value that changes is the truthy pretty-printed one |
| TypeResolver.ContentStep | tasks/ramlprerender.js:107-118 | the description is rendered when present; every example, in order, keeps its unnamed keys and gets its description rendered and its value printed as `ExampleValue` says; the example is pretty printed only when it is truthy and a format is known; nothing else changes |
| TypeResolver.SchemaDescription | tasks/ramlprerender.js:122 | reading `description` from a `null` schema throws; an object gives its `description` member, absent or not; any other value has none |
| TypeResolver.ConvertSchema | tasks/ramlprerender.js:119-129 | without a schema or a format nothing changes. Another format only pretty prints the schema. `application/json` parses, hoists a truthy string description onto an occurrence without one (deleting it from the schema), and re-stringifies; a schema that parses to something other than an object is re-stringified whole. Parse failures propagate, a `null` schema and a truthy non-string description make the step fail, and an existing description is never replaced |
| TypeResolver.PropertiesStep | tasks/ramlprerender.js:86-88 | the properties, when present, are converted and resolved; nothing else changes |
| TypeResolver.ItemsStep | tasks/ramlprerender.js:92-106 | falsy `items` are left alone. A joined name that no global type has makes the items absent. A known name becomes that global definition with its properties inherited, then converted, keeping the global type's unnamed keys first. An inline definition is converted in place. Either step's failure is the step's outcome, and nothing but `items` changes |
| TypeResolver.Converted | tasks/ramlprerender.js:72-130 | a converted type has no list of type names and only resolved inline items and properties; its own unnamed keys stay first |
| TypeResolver.Expanded | tasks/ramlprerender.js:86-130 | once expanded, a type whose conversion succeeds is resolved throughout and keeps its unnamed keys first |
| TypeResolver.Finished | tasks/ramlprerender.js:89-129 | after the properties, the remaining steps keep the unnamed keys first, and leave the type resolved when its properties already are |
| TypeResolver.ConvertType | tasks/ramlprerender.js:72-130 | the in-place conversion gives exactly `Converted` |
| TypeResolver.ExpandType | tasks/ramlprerender.js:78-84 | the expansion step with its inheritance loop gives exactly `ExpandStep` |
| TypeResolver.ConvertItems | tasks/ramlprerender.js:92-106 | the items step gives exactly `ItemsStep` |
| TypeResolver.ConvertContent | tasks/ramlprerender.js:107-118 | the loop over the examples gives exactly `ContentStep` |
| TypeResolver.ConvertedProperties | tasks/ramlprerender.js:133-140 | the names and their order are kept and every value is resolved. URI parameters are flagged `uri = true`; other parameters, such as query parameters, are converted as they are, unflagged, and keep their own keys first. Each value is exactly the conversion of the (flagged) parameter without a format |
| TypeResolver.PropertiesFirstFailure | tasks/ramlprerender.js:134-139 | a failing walk fails with the error of the first parameter whose conversion fails, and every parameter before it converts |
| TypeResolver.ConvertProperties | tasks/ramlprerender.js:133-140 | the `forOwn` loop gives exactly `ConvertedProperties`, stopping at the first failure |
| TypeResolver.ConvertedBodies | tasks/ramlprerender.js:143-148 | each body keeps its media type and is exactly its conversion with that media type as the format |
| TypeResolver.BodiesFirstFailure | tasks/ramlprerender.js:143-148 | a failing walk fails with the error of the first body whose conversion with its media type fails, and every body before it converts |
| TypeResolver.ConvertBodies | tasks/ramlprerender.js:143-148 | the `forOwn` loop over the bodies gives exactly `ConvertedBodies` |
| Formatter.TypeTableNames | tasks/ramlprerender.js:156-160 | every name in the type table is the first key of some entry of the `types` list |
| Formatter.TypeTableLastWins | tasks/ramlprerender.js:156-160 | an entry whose first key is followed by no later entry with that key defines the name: a later entry overwrites an earlier one |
| Formatter.CollectTypes | tasks/ramlprerender.js:156-160 | the reduce loop builds exactly the type table; an absent list gives the empty table |
| Formatter.OptProperties | tasks/ramlprerender.js:162 | an absent parameter map stays absent; a present one is converted as `ParamsConverted` states |
| Formatter.OptBodies | tasks/ramlprerender.js:173 | an absent body map stays absent; each present body is exactly its conversion with its media type as the format |
| Formatter.FormattedResponse | tasks/ramlprerender.js:176-179 | a `null` response stays `null`; otherwise its description is rendered only when present and each body is converted with its media type |
| Formatter.FormattedResponses | tasks/ramlprerender.js:175-180 | every response keeps its status code and is formatted |
| Formatter.FormattedMethod | tasks/ramlprerender.js:170-180 | the description is rendered only when present; query parameters are converted unflagged; each body is converted with its media type; responses are formatted; nothing else changes |
| Formatter.FormattedMethods | tasks/ramlprerender.js:169-181 | every method is formatted, in order |
| Formatter.FormattedResource | tasks/ramlprerender.js:167-181 | the path, child list and unnamed keys are kept; the description is rendered only when present; URI parameters are converted and flagged `uri = true`; the methods are formatted |
| Formatter.FormattedResources | tasks/ramlprerender.js:166-182 | every top-level resource is formatted, in order |
| Formatter.Formatted | tasks/ramlprerender.js:151-188 | `types` is deleted; base URI parameters are flagged; documentation content is rendered; resources are formatted; the unnamed keys are kept |
| Formatter.FormatDocs | tasks/ramlprerender.js:163-165 | the documentation loop renders each section's content |
| Formatter.FormatProperties | tasks/ramlprerender.js:162 | `convertProperties` on a map that may be absent gives exactly `OptProperties` |
| Formatter.FormatBodies | tasks/ramlprerender.js:173 | `forOwn` over a body map that may be absent gives exactly `OptBodies` |
| Formatter.FormatResponse | tasks/ramlprerender.js:176-179 | the response callback gives exactly `FormattedResponse` |
| Formatter.FormatResponses | tasks/ramlprerender.js:175-180 | the responses loop gives exactly `FormattedResponses` |
| Formatter.FormatMethod | tasks/ramlprerender.js:170-180 | the method callback gives exactly `FormattedMethod` |
| Formatter.FormatMethods | tasks/ramlprerender.js:169-181 | the methods loop gives exactly `FormattedMethods` |
| Formatter.FormatResource | tasks/ramlprerender.js:167-181 | the resource callback gives exactly `FormattedResource` |
| Formatter.FormatResources | tasks/ramlprerender.js:166-182 | the resources loop gives exactly `FormattedResources` |
| Formatter.FormatForDisplay | tasks/ramlprerender.js:151-188 | `formatForDisplay` gives exactly `Formatted` |
| Pipeline.FirstError | tasks/ramlprerender.js:223 | the index found is of a non-warning with only warnings before it; none is found exactly when every diagnostic is a warning |
| Pipeline.ProcessOne | tasks/ramlprerender.js:222-248 | with `validate` set and some non-warning diagnostic, processing stops with `'Error ' + version + ' (' + path + ':' + line + ') ' + message` of the first one. Without `validate`, or with warnings only, the outcome is the prune-unnest-format result, whose failure is reported as `'Error formatting ' + src + ' ' + err` |
| Pipeline.ProcessOneRamlFile | tasks/ramlprerender.js:209-266 | the gate, then the three stages in order, give exactly `ProcessOne` |
| Pipeline.PreparedDocument | tasks/ramlprerender.js:242-244 | after the three stages every node of the pruned tree is a top-level resource, in reverse post-order. Each has the concatenated path of its chain, the description pushed down that chain and then rendered, and the URI parameters pushed down that chain whose names are then converted and flagged. No `resources`, `relativeUriPathSegments` or `types` remain |
| Pipeline.PruneFirst | tasks/ramlprerender.js:242 | processing an already pruned tree gives the same outcome |
| Pipeline.Batch | tasks/ramlprerender.js:288-315 | the walk succeeds exactly when every file does. Otherwise it stops at the first file that fails, with that file's error, and every earlier file succeeded |
| Pipeline.RunBatch | tasks/ramlprerender.js:288-315 | the sequential walk gives exactly `Batch` |

## Left out

- Loading and validating the RAML file (`raml.loadApi`, `toJSON`, the `validateRaml` stub), logging, writing the output file and grunt's task registration are I/O. Only their effect on control flow is modelled. The loader's result is an input, `Loaded`.
- The `Too many sources` check and the filtering of missing source files: the batch is modelled over an abstract per-file outcome.
- The markdown renderer, the pretty printers, the JSON and YAML parsers and `JSON.stringify` are uninterpreted functions. Only the renderer's guard, which returns falsy text unchanged, is modelled.
- Formatter.FormatForDisplay: after `unnest`, a resource and its descendants share the same parameter objects. The source converts such a shared object once for each resource that holds it, so a description is rendered again. With value semantics, the model converts each resource's copy once.
- `omit-deep` is modelled on the typed tree. The named fields of a record are never undesired keys, so pruning applies to the `other` members, the JSON payloads and the keyed collections.
- TypeResolver.Converted: the engine's stack is the `fuel` bound. How deep a real stack goes, and so which finite type graphs overflow, is not modelled; cyclic first-parent chains overflow for every bound.
- TypeResolver.ExampleValue: an absent example value stays absent. Whether a printer would turn `undefined` into something truthy is not modelled.
- The texts of engine error messages (`TypeError: ...`, `RangeError: ...`) are modelled on V8's wording.
- Object key order follows insertion order for every key. The engine's rule that integer-like keys come first is not modelled.
- Numbers in JSON payloads are integers; the pipeline only passes them through.
- Prototype-chain lookups through the `types` object (a type named `constructor`, say) are not modelled.
