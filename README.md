# OpenAPI schema-complexity analyser, modelled in Dafny

The analyser reads an OpenAPI 3.x or Swagger 2.x document given as JSON or YAML text. For every operation (a path and one of the methods `get` … `head`) it produces one endpoint record. Each record holds the operation's path, its method in upper case, its `operationId` and `summary`, and two `SchemaAnalysis` results: one for the request schema and one for the response schema. An analysis counts fields (`fieldCount`) and nesting (`maxDepth`). To do so it follows same-document `$ref` references, stops at a reference already on the current path, combines `allOf` branches by sum and `oneOf`/`anyOf` branches by maximum, passes through array `items`, and counts object properties and `additionalProperties`.

The model works on the decoded document. A decoded document is a JavaScript value tree (`JsValues.Value`: undefined, null, booleans, numbers, strings, arrays, and objects as ordered key/value lists). Property reads, truthiness and `for … of` follow JavaScript's rules on objects and arrays, including the TypeError thrown when iterating something that is not iterable. Strings are sequences of Unicode code points, so their index keys differ from JavaScript's UTF-16 ones outside the Basic Multilingual Plane (see "## Left out").

Modules:

- `Outcomes`: `Option`, `Result` and the three ways the analyser can fail:
  - `ParseFailed`: neither decoder accepts the text;
  - `InvalidSpec`: there is no `openapi` or `swagger` marker;
  - `TypeError`: the JavaScript runtime error raised by a property read on null or undefined, or by iterating a non-iterable.
- `JsValues`: the value tree, truthiness, property lookup (the first matching key; array indices as decimal keys) and the size/reference measures used for termination.
- `Pointer`: `resolveRef`. It covers `replace` of the first `#/`, `split('/')`, and the walk of property reads, with `ResolveRef` as the loop itself.
- `SchemaAnalyzer`: `analyzeSchema`, in two forms:
  - the function `Analyze`, one rule after another. It terminates because every step either records a new reference of the document or moves to a strict part of the schema;
  - the loop methods (`AnalyzeSchema`, `SumBranches`, `MaxBranches`, `PropertyLoop`, …), each proved equal to it.
- `SchemaFacts`: what the analysis promises: the reference, composition, array, object and primitive rules, order independence of compositions, and worked schemas.
- `OperationSchemas`: `getRequestSchema` and `getResponseSchema`, including media-type preference, the body-parameter `find`, and the success-code filter and sort.
- `OpenApiReport`: `parseOpenAPI` on the decoded document. It covers:
  - the marker check;
  - the loops over path items and methods;
  - the `info` defaults;
  - the characterisation of the report in terms of the declared operations (`DeclaredOperations`).
- `ReportFacts`: one whole document worked through to its report.

The two decoders are parameters: `Option<Value>` for what `JSON.parse` and `yaml.load` yield, `None` when the decoder throws.

Where the schema walk shares the `visited` set, the model passes it unchanged: that happens only in tail calls (`$ref` and `items`). In every other place the source copies the set. An immutable set therefore gives the same results.

As the code is written, and followed here:

- The response loop returns at the first success response that has truthy `content`, even when the chosen media type has no `schema`. In that case no later response is considered.
- A `requestBody` without truthy `content` falls through to the Swagger body parameter.
- A TypeError is thrown in these cases:
  - a `$ref` that is truthy but not a string;
  - a composition list that cannot be iterated;
  - `parameters` that are truthy but not an array;
  - a null or undefined parameter before the body parameter;
  - a document that decodes to null or undefined.
- A property whose schema is only a composition (`allOf`/`oneOf`/`anyOf`) adds its depth but not its nested fields, because the nesting test looks at `type`, `$ref` and `properties` only (`SchemaFacts.CompositionPropertyNotCounted`).

## Model

Each loop method is proved equal to a function. The rows for that method, and the lemmas about the function, also cover it:
- `SchemaAnalyzer.Analyze` and its rule functions go with `AnalyzeSchema` and the methods below it.
- `Pointer.ReplaceFirst`, `Pointer.Walk` and `Pointer.Resolve` go with `ResolveRef` and the `Pointer` lemmas.
- `OperationSchemas.PreferredMediaType` and `MediaSchema` go with `JsonPreferred` … `MediaTypeDeclared`.
- `OperationSchemas.ResponseDecision`, `FirstDecision` and `ResponseSchema` go with `GetResponseSchema`, `LowestSuccessDecides` and `NoSuccessDecides`.
- `OpenApiReport.Decode` and `ParseResult` go with `ParseOpenAPI` and `ParseOutcome`.
- `OpenApiReport.EndpointOf` goes with `OperationEndpoint` and `EndpointContents`.
- `OpenApiReport.MethodEndpoints` goes with `PathItemEndpoints` and `MethodsDescribed`.
- `OpenApiReport.CollectEndpoints` goes with `EntriesDescribed`.
- `OpenApiReport.AnalyzeDocument` goes with `DocumentDescribed`, `DocumentErrors`, `InfoDefaults` and `NoPaths`.

| member | source | states |
|---|---|---|
| Pointer.ResolveRef | src/lib/openapi-parser.ts:24-31 | the loop reads one property per key segment, and its result is the value the reference designates (`Resolve`) |
| Pointer.IndexFrom | src/lib/openapi-parser.ts:25 | the position found is an occurrence of the pattern at or after the start, and no earlier position holds one; -1 when none does |
| Pointer.ReplaceFirstAt | src/lib/openapi-parser.ts:25 | `replace` with a string pattern removes only the first occurrence and keeps what precedes and follows it |
| Pointer.Split | src/lib/openapi-parser.ts:25 | `split` always yields at least one piece |
| Pointer.JoinSplit | src/lib/openapi-parser.ts:25 | splitting at `/` loses nothing: joining the pieces gives the string back |
| Pointer.SplitJoin | src/lib/openapi-parser.ts:25 | pieces free of `/` are recovered exactly by splitting their join |
| Pointer.SplitSeparatorFree | src/lib/openapi-parser.ts:25 | no segment of a split contains the separator |
| Pointer.WalkMissingStep | src/lib/openapi-parser.ts:27-29 | once a step of the optional-chained walk reaches undefined, the whole result is undefined |
| Pointer.ResolveBound | src/lib/openapi-parser.ts:24-31 | a resolved reference is part of the document: no larger and holding no reference the document lacks |
| Pointer.ResolveComponent | src/lib/openapi-parser.ts:24-31 | `#/components/schemas/<name>` reads `components`, then `schemas`, then `name` |
| Pointer.UnanchoredMarker | src/lib/openapi-parser.ts:25 | a reference not starting with `#/` still loses its first `#/`: "a#/b" designates key "ab" |
| Pointer.SecondMarkerKept | src/lib/openapi-parser.ts:25 | only the first `#/` is removed: "#/a/#/b" walks "a", "#", "b" |
| SchemaAnalyzer.Analyze | src/lib/openapi-parser.ts:33-116 | every analysis terminates; it fails only with a TypeError; its depth is 0 or at least the starting depth, and at least the starting depth once a field is counted |
| SchemaAnalyzer.FollowRef | src/lib/openapi-parser.ts:44-51 | the `$ref` rule keeps what every analysis satisfies (`Reached`): its only error is a TypeError, and its depth is 0 or at least `depth`, at least `depth` once a field is counted |
| SchemaAnalyzer.AnalyzeComposition | src/lib/openapi-parser.ts:53-75 | the composition rule keeps `Reached`: its only error is a TypeError, and its depth is 0 or at least `depth` |
| SchemaAnalyzer.AnalyzeShape | src/lib/openapi-parser.ts:77-115 | the array, object and primitive rules keep `Reached` |
| SchemaAnalyzer.AnalyzeObject | src/lib/openapi-parser.ts:86-111 | an object's result keeps `Reached` |
| SchemaAnalyzer.AnalyzeProperties | src/lib/openapi-parser.ts:88-102 | the properties' result keeps `Reached`: with any property the depth is at least `depth` |
| SchemaAnalyzer.AdditionalResult | src/lib/openapi-parser.ts:105-109 | `additionalProperties` is analysed exactly when it is truthy and of type object, and then reaches 0 or at least `depth + 1` |
| SchemaAnalyzer.AnalyzeSchema | src/lib/openapi-parser.ts:33-116 | the recursive procedure with its loops yields exactly `Analyze` |
| SchemaAnalyzer.FollowReference | src/lib/openapi-parser.ts:44-51 | the `$ref` branch: a visited reference gives (0, depth); a new one analyses its target with the reference recorded; a truthy non-string `$ref` is a TypeError |
| SchemaAnalyzer.Compose | src/lib/openapi-parser.ts:53-75 | the composition branch: `allOf` is summed, otherwise `oneOf` or else `anyOf` is maximised; not iterable gives a TypeError |
| SchemaAnalyzer.SumBranches | src/lib/openapi-parser.ts:54-63 | the `allOf` loop yields the sum of the branch counts and the maximum of depth and the branch depths |
| SchemaAnalyzer.MaxBranches | src/lib/openapi-parser.ts:65-75 | the `oneOf`/`anyOf` loop yields the largest branch count and the maximum depth |
| SchemaAnalyzer.AnalyzeBranch | src/lib/openapi-parser.ts:58 | one branch is analysed at the same depth with a copy of the visited set |
| SchemaAnalyzer.AnalyzeShapeSchema | src/lib/openapi-parser.ts:77-115 | the array, object and primitive rules in their order |
| SchemaAnalyzer.AnalyzeObjectSchema | src/lib/openapi-parser.ts:86-111 | the object branch: properties, then `additionalProperties` |
| SchemaAnalyzer.PropertyLoop | src/lib/openapi-parser.ts:92-102 | the property loop: one field per property, nested fields only from structural properties, depth the maximum |
| SchemaAnalyzer.AnalyzeAdditional | src/lib/openapi-parser.ts:105-109 | `additionalProperties` counts only when truthy and of type object, one level deeper |
| SchemaAnalyzer.DepthMaxIsMaximum | src/lib/openapi-parser.ts:56-60 | the running depth is at least the start and every branch depth, and equals one of them |
| SchemaAnalyzer.FieldMaxIsMaximum | src/lib/openapi-parser.ts:67-72 | the running field maximum bounds every branch and is attained (or 0 without branches) |
| SchemaAnalyzer.FieldSumPermutation | src/lib/openapi-parser.ts:55-61 | the field sum does not depend on branch order |
| SchemaAnalyzer.CompositionOrderIrrelevant | src/lib/openapi-parser.ts:54-75 | combining permuted branch results gives the same `allOf` and `oneOf` result |
| SchemaFacts.CycleStops | src/lib/openapi-parser.ts:45-47 | a reference already visited stops the walk with (0, depth) |
| SchemaFacts.ReferenceFollowed | src/lib/openapi-parser.ts:48-50 | a new reference analyses as its resolved target, the reference added to visited, at the same depth |
| SchemaFacts.SelfReference | src/lib/openapi-parser.ts:44-51 | a schema referring to itself terminates with (0, depth) |
| SchemaFacts.DanglingReference | src/lib/openapi-parser.ts:44-51 | a reference to nothing gives (0, 0) |
| SchemaFacts.RecursiveComponent | src/lib/openapi-parser.ts:44-51 | a component whose property refers back to itself terminates with one field, one level deeper |
| SchemaFacts.CompositionPrecedence | src/lib/openapi-parser.ts:54-75 | the first composition keyword that applies decides alone: the schema analyses as the object holding only that keyword |
| SchemaFacts.CompositionNotIterable | src/lib/openapi-parser.ts:57 | a composition list that cannot be iterated is a TypeError |
| SchemaFacts.BranchOrderIrrelevant | src/lib/openapi-parser.ts:57-58 | reordering a composition's branches does not change its analysis |
| SchemaFacts.AllOfTotals | src/lib/openapi-parser.ts:54-63 | `allOf` of succeeding branches counts the sum of their fields and reaches at least every branch depth and the start |
| SchemaFacts.OneOfLargest | src/lib/openapi-parser.ts:65-75 | `oneOf` or `anyOf` of succeeding branches counts the largest branch count, which is attained (or 0), and its depth is the largest of `depth` and the branch depths: at least each and equal to one |
| SchemaFacts.FailingBranch | src/lib/openapi-parser.ts:57-58 | one failing branch fails the whole composition with a TypeError |
| SchemaFacts.ArrayPassesItems | src/lib/openapi-parser.ts:78-84 | an array schema with items analyses as its items one level deeper |
| SchemaFacts.Absent | src/lib/openapi-parser.ts:39-41 | a falsy schema gives (0, 0) |
| SchemaFacts.PrimitiveCountsNothing | src/lib/openapi-parser.ts:114-115 | a schema matching no rule gives (0, 0) |
| JsValues.KeyedReads | src/lib/openapi-parser.ts:93-94 | when no key repeats, reading each key `Object.keys` lists yields `Object.values` in the same order, so the property loop analyses the property values |
| SchemaFacts.ObjectOfProperties | src/lib/openapi-parser.ts:87-111 | an object combines its property analyses and then `additionalProperties` |
| SchemaFacts.PropertiesCounted | src/lib/openapi-parser.ts:90-91 | a successfully analysed object counts at least one field per property, and with any property reaches the starting depth |
| SchemaFacts.TwoStringProperties | src/lib/openapi-parser.ts:87-111 | two string properties give (2, depth) |
| SchemaFacts.NestedObjectProperty | src/lib/openapi-parser.ts:98-100 | an object property's own fields are added: (2, depth + 1) |
| SchemaFacts.CompositionPropertyNotCounted | src/lib/openapi-parser.ts:98 | an `allOf`-only property adds its depth but not its fields: (1, depth + 1) |
| SchemaFacts.AdditionalFlagIgnored | src/lib/openapi-parser.ts:105 | `additionalProperties: true` is not an object and adds nothing |
| SchemaFacts.AdditionalObjectCounted | src/lib/openapi-parser.ts:105-109 | an object under `additionalProperties` adds its count one level deeper |
| OperationSchemas.JsonPreferred | src/lib/openapi-parser.ts:123 | a truthy `application/json` media type is taken wherever it is declared |
| OperationSchemas.WildcardNext | src/lib/openapi-parser.ts:123 | without it, a truthy `*/*` is taken |
| OperationSchemas.FirstDeclared | src/lib/openapi-parser.ts:123 | without either, the first declared media type is taken, schema or not |
| OperationSchemas.MediaTypeDeclared | src/lib/openapi-parser.ts:123 | the chosen media type is one the content declares, or undefined |
| OperationSchemas.NoMediaTypes | src/lib/openapi-parser.ts:123-124 | content declaring no media type yields an undefined schema |
| OperationSchemas.RequestBodyFirst | src/lib/openapi-parser.ts:120-125 | a request body with content decides, whatever the parameters |
| OperationSchemas.BodyParameterFallback | src/lib/openapi-parser.ts:129-133 | otherwise the first body parameter's schema is taken when nothing null precedes it |
| OperationSchemas.NoRequestSchema | src/lib/openapi-parser.ts:129-136 | without a request body with content, falsy parameters or an array with no body parameter and no null element give null |
| OperationSchemas.NullBeforeBody | src/lib/openapi-parser.ts:129-130 | without a request body with content, a null or undefined parameter before any body parameter makes the request schema a TypeError |
| OperationSchemas.ParametersNotArray | src/lib/openapi-parser.ts:130 | truthy parameters that are not an array throw |
| OperationSchemas.FindBody | src/lib/openapi-parser.ts:130 | `find` fails only with a TypeError, and what it finds is a non-null body parameter of the list |
| OperationSchemas.FindBodyThrows | src/lib/openapi-parser.ts:130 | `find` throws exactly when it reaches a null or undefined parameter before any body parameter |
| OperationSchemas.FindBodyFound | src/lib/openapi-parser.ts:130 | a found parameter is a body parameter of the list after parameters that all passed |
| OperationSchemas.RequestSchema | src/lib/openapi-parser.ts:118-137 | the request schema fails only with a TypeError |
| OperationSchemas.SuccessFilterKeeps | src/lib/openapi-parser.ts:145 | the filter keeps exactly the three-digit codes starting with 2 |
| OperationSchemas.SortCodesSorts | src/lib/openapi-parser.ts:145 | the sort yields an ordered permutation of its input |
| OperationSchemas.SuccessCodesAre | src/lib/openapi-parser.ts:144-145 | the codes looked at are sorted and are exactly the success-code keys of the responses |
| OperationSchemas.GetResponseSchema | src/lib/openapi-parser.ts:139-163 | the loop over sorted success codes returns the first decision, or null |
| OperationSchemas.LowestSuccessDecides | src/lib/openapi-parser.ts:147-160 | the lowest success code whose response has content or a schema decides |
| OperationSchemas.NoSuccessDecides | src/lib/openapi-parser.ts:141-162 | with no deciding success response the schema is null |
| OpenApiReport.ParseOpenAPI | src/lib/openapi-parser.ts:165-219 | the procedure with its two loops yields exactly `ParseResult` of the decoder outcomes |
| OpenApiReport.PathItemEndpoints | src/lib/openapi-parser.ts:193-211 | the inner loop yields the endpoints of the seven methods in order, stopping at the first error |
| OpenApiReport.OperationEndpoint | src/lib/openapi-parser.ts:194-210 | one operation's endpoint record, both schemas analysed from depth 1 with nothing visited |
| OpenApiReport.MethodNames | src/lib/openapi-parser.ts:188 | the reported method names are GET, POST, PUT, PATCH, DELETE, OPTIONS, HEAD |
| OpenApiReport.EndpointContents | src/lib/openapi-parser.ts:203-210 | a record carries the path, method upper-cased, `operationId`, `summary`; a failure is a TypeError |
| OpenApiReport.DeclaredMember | src/lib/openapi-parser.ts:190-196 | the declared operations are the truthy operations, under a listed method, of path items that are truthy objects |
| OpenApiReport.MethodsDescribed | src/lib/openapi-parser.ts:193-211 | a path item succeeds exactly when each truthy operation can be analysed, then yielding their endpoints in method order |
| OpenApiReport.EntriesDescribed | src/lib/openapi-parser.ts:190-212 | the path walk succeeds exactly when every declared operation can be analysed, then yielding their endpoints one for one |
| OpenApiReport.DocumentDescribed | src/lib/openapi-parser.ts:184-218 | a document with a marker is reported exactly when all its operations can be analysed, with one endpoint per declared operation and the count of them |
| OpenApiReport.DocumentErrors | src/lib/openapi-parser.ts:180-182 | InvalidSpec exactly when neither marker is truthy; TypeError exactly for a null document or an operation that cannot be analysed; never a parse error |
| OpenApiReport.ParseOutcome | src/lib/openapi-parser.ts:169-177 | JSON wins when it decodes; YAML is tried only after; the parse error exactly when both fail |
| OpenApiReport.InfoDefaults | src/lib/openapi-parser.ts:215-216 | title and version come from a truthy `info` when truthy there, else "Untitled API" and "N/A" |
| OpenApiReport.NoPaths | src/lib/openapi-parser.ts:185 | without truthy `paths` the report has no endpoint and a count of 0 |
| ReportFacts.ItemsReport | src/lib/openapi-parser.ts:179-219 | a document with one `GET /items` returning an array of strings reports one endpoint with (0, 0) analyses and the default title and version |

## Left out

- Decoding JSON and YAML text: the results of `JSON.parse` and `yaml.load` are parameters, because the decoders belong to the runtime and a library.
- The interfaces at lines 3-22 are datatypes (`Analysis`, `Endpoint`, `Report`); they state nothing of their own.
- Numbers are integers: floating-point values, `NaN` and `Math.max` on them are not modelled; no count in the analyser is fractional.
- Inherited and prototype properties (`length` of strings and arrays, `constructor`, …) are not visible to property reads; only own keys are.
- Objects with duplicate keys: a property read takes the first occurrence, but `Keys`, `Values` and `Entries` keep every copy, so such an object would count a repeated property, or walk a repeated path, more than once. Decoded documents do not have them: `JSON.parse` keeps one member per key, and `yaml.load` rejects duplicate keys. `JsValues.KeyedReads` holds only without them.
- Strings are indexed by Unicode code point, while `Object.keys`, `Object.entries` and `s[i]` index by UTF-16 code unit. A string holding characters outside the Basic Multilingual Plane therefore has fewer keys in the model than in JavaScript. This matters only for a string used where an object is expected, e.g. `properties: '😀'` counts 1 field in the model and 2 in JavaScript. `for … of` is not affected: it iterates by code point in both.
- `Object.keys` lists integer-like keys first in ascending order; the model keeps the declared order. The success codes are sorted afterwards, so the choice of status code does not depend on it. Two choices do depend on it:
  - The media-type fallback `Object.values(content)[0]` (lines 123 and 152; `OperationSchemas.FirstValue`, `OperationSchemas.FirstDeclared`) takes the first declared media type. JavaScript takes an integer-like key first, so the two differ for `content: {"text/plain": {schema: A}, "1": {schema: B}}` without `application/json` or `*/*`: the model picks A, JavaScript picks B.
  - The order of the endpoints follows the order of the path entries, so for integer-like paths the model's endpoint order can differ from JavaScript's.
- OpenApiReport.Upper: upper-cases ASCII only, which covers the seven method names.
- Error texts: the two messages the parser raises (lines 175 and 181) are represented by the `ParseFailed` and `InvalidSpec` constructors, and the runtime's TypeError messages by `TypeError`; the text itself is not modelled.
- The user interface files and the rest of the application are not part of this model.
