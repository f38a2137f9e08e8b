# OpenAPI generator core, modelled in Dafny

This project models the generation engine of MethorZ/openapi-generator. The
engine builds an OpenAPI 3 description of a PHP application from two inputs:
its route table and the reflected types of its request handlers and DTOs
(data-transfer objects). The model covers six source files:

- **TypeResolver** maps PHP types to schema fragments. It covers the scalar
  mapping, unit and backed enums, typed arrays (the item type comes from a
  doc comment) and union types (`oneOf`).
- **ConstraintExtractor** turns Symfony Validator attributes into schema
  keywords and the `required` flag. It handles NotBlank, Uuid, Length,
  Range, Email and Url.
- **DtoSchemaGenerator** builds object schemas for DTO classes. It keeps a
  schema cache and a processing stack, and can list the cache by short name.
- **HandlerAnalyzer** finds a handler's request and response DTO from the
  signature of its `__invoke` method.
- **RouteScanner** turns the route table into the `paths` object: one path
  item per path, one operation per allowed method.
- **OpenApiConfig** covers `fromArray`, `toArray`, `default()` and the
  constructor defaults.

## Representation

- **PHP arrays.** A PHP array is an ordered map: a sequence of key/value
  entries (`Values.Entry`), with string or integer keys (`Values.Key`).
  - Assigning to a key (`Values.Put`) keeps an existing key in place and
    appends a new key at the end, as PHP does.
  - Reading a key (`Values.Get`) is `$a[$k] ?? null`.
  - `array_merge` over string keys (`Values.Merge`) assigns the second
    array's entries into the first, in order.
  - Array literals are written as the same chain of assignments from `[]`
    that PHP performs. Lists carry the keys 0, 1, 2, ...
- **Reflection** is an explicit registry (`Reflection.Registry`). It maps each
  class name (enums included, since `class_exists` holds for them) to its
  kind, its properties as `getProperties` lists them (inherited ones
  included, each with the name of the class that declares it), its
  constructor and class doc comments, and its `__invoke` signature, if any. A name absent from the
  registry is not a class: this covers undefined names and interfaces such as
  the PSR-7 `ServerRequestInterface`.
- **Item types from doc comments.** The regular expression that reads an
  array item type from a doc comment is a parameter of the model
  (`Reflection.DocHint`). The comments read are those of the property's
  declaring class, the constructor's before the class's.
- **Falsy strings.** PHP's falsy strings (`""` and `"0"`) are modelled where
  the source tests a string for truthiness: the route path, the handler class
  and the two DTO names.
- **Imperative parts.**
  - `DtoSchemaGenerator.SchemaGenerator` is a class whose cache and stack
    fields its methods update.
  - `RouteScanner.RouteScanner` is a class whose methods run the source's
    loops.
  - `ConstraintExtractor.ApplyConstraints` is a loop that updates
    by-reference parameters.

  Each of these is proved equal to a pure function of the model, and the
  properties are proved as lemmas about that function.

**Behaviour worth noting.**

- Summary and operationId: `str_replace` deletes every occurrence of
  "Handler" from the handler's basename in one left-to-right pass, not only a
  trailing one (`Text.RemoveAll`). `RouteScanner.StrippedNameOfPieces` states
  the result for any basename. So `Ns\HandlerXHandler` is stripped to X,
  as `RouteScanner.LeadingHandlerRemoved` states, and `App\HandlerFooHandler`
  gets the operationId foo. `RouteScanner.OperationIdOfHandler` states the
  result for the usual `Ns\XHandler`.
- `generate` does not recurse: a property typed with a class becomes a
  `$ref`, and `generate` is never called for that class. So the
  circular-reference branch is reachable only through a stack that callers
  cannot fill. The model keeps that branch and proves what it returns.
- The schema cache is keyed by the fully qualified class name. Only
  `getAllSchemas` re-keys it by short name. There, a later class with the
  same short name overwrites an earlier one (`DtoSchemaGenerator.ByShortNameGet`
  states when no such overwrite happens).
- Method names are compared case-sensitively when choosing the request body
  and the success code. Only the key an operation is stored under is
  lower-cased, so "get" and "GET" are one key, and the later of the two wins.

## Model

| member | source | states |
|---|---|---|
| Values.Get | src/Generator/RouteScanner.php:37 | `$a[$k] ?? null` gives a value exactly when the key is present |
| Values.Put | src/Generator/RouteScanner.php:81 | array assignment: an existing key keeps its position and a new key is appended; the key then holds the new value and every other key keeps its value |
| Values.PutUnique | src/Generator/RouteScanner.php:81 | assignment never creates a duplicate key |
| Values.PutPut | src/Generator/RouteScanner.php:46-50 | assigning a key twice is the same as assigning the second value once, so creating an empty path item before merging into it is invisible |
| Values.Merge | src/Generator/RouteScanner.php:50 | `array_merge` of string-keyed arrays; its keys, values and uniqueness are stated by `MergeGet`, `MergeKeys`, `MergeLastWins` and `MergeUnique` |
| Values.MergeGet | src/Generator/RouteScanner.php:50 | after `array_merge`, a key of the second array holds the second array's value and any other key keeps the first array's value |
| Values.MergeKeys | src/Generator/RouteScanner.php:50 | the keys of a merge are those of either array, and the first array's keys stay at the front in their own order |
| Values.MergeLastWins | src/Generator/RouteScanner.php:50 | when the second array repeats a key, the last entry with that key decides its value |
| Values.MergeUnique | src/Generator/RouteScanner.php:50 | merging into an array without duplicate keys gives an array without duplicate keys |
| Values.List | src/Generator/RouteScanner.php:225 | appending with `[]` from an empty array stores the items under the keys 0, 1, 2, ... in order |
| Text.Lower | src/Generator/RouteScanner.php:80 | `strtolower` on one character moves an ASCII upper-case letter to its lower-case letter and leaves any other character unchanged |
| Text.LowerStr | src/Generator/RouteScanner.php:80 | `strtolower` keeps the length and lowers every character independently |
| Text.LcFirst | src/Generator/RouteScanner.php:190 | `lcfirst` lowers the first character only |
| Text.LastSegment | src/Generator/RouteScanner.php:318-323 | the basename is a suffix of the name with no separator in it; when it is shorter than the name, a separator comes right before it |
| Text.LastSegmentOf | src/Generator/DtoSchemaGenerator.php:113-118 | the text after a final separator is the last segment |
| Text.Split | src/Generator/RouteScanner.php:158 | `explode` gives at least one piece and no piece contains the separator; joining the pieces with the separator gives back the input |
| Text.RemoveAll | src/Generator/RouteScanner.php:173 | `str_replace` with an empty replacement never lengthens the text, and leaves it unchanged when the pattern does not occur |
| Text.RemoveAllMid | src/Generator/RouteScanner.php:173 | for a pattern with no proper prefix that is also its suffix, the single pass copies a prefix free of the pattern, deletes the occurrence after it, and carries on with the rest |
| Text.RemoveAllJoin | src/Generator/RouteScanner.php:173 | for such a pattern, removing it from pieces joined by it gives the pieces concatenated: every occurrence is deleted |
| Text.Words | src/Generator/RouteScanner.php:176 | the split before upper-case letters gives non-empty pieces that concatenate to the input; every piece after the first starts with an upper-case letter, and no piece has an upper-case letter after its first character |
| Text.LowerAll | src/Generator/RouteScanner.php:182 | `array_map('strtolower', ...)` lowers each word and keeps the order |
| Text.ConcatLowerAll | src/Generator/RouteScanner.php:182 | lowering the words and then concatenating them is the same as lowering the concatenation |
| TypeResolver.MapPhpTypeToOpenApi | src/Generator/TypeResolver.php:24-33 | int, float, bool and array each map to their own OpenAPI type, and only they do; every other name maps to string |
| TypeResolver.CaseValues | src/Generator/TypeResolver.php:62-66 | one backing value per enum case, in case order |
| TypeResolver.GenerateEnumSchema | src/Generator/TypeResolver.php:41-79 | a name that is not an enum gives `{type: string}`; an enum gives exactly the keys type and enum, in that order |
| TypeResolver.UnitEnumSchema | src/Generator/TypeResolver.php:50-56 | a unit enum is a string schema that lists its case names in declaration order under 0, 1, 2, ... |
| TypeResolver.BackedEnumSchema | src/Generator/TypeResolver.php:58-78 | a backed enum's type is its mapped backing type, or string when reflection reports none; its enum list holds the backing values in case order |
| TypeResolver.NamedTypeSchema | src/Generator/TypeResolver.php:95-103 | the fragment of one named type, as `generateArraySchema` and `generateUnionTypeSchema` build it; stated by `NamedTypeSchemaShape` |
| TypeResolver.NamedTypeSchemaShape | src/Generator/TypeResolver.php:95-103 | an enum gives exactly the keys type and enum, its type being string for a unit enum and the mapped backing type for a backed one; another existing class gives exactly `$ref`, pointing at `#/components/schemas/` plus its schema name; any other name gives exactly type, holding its mapped primitive type |
| TypeResolver.ExtractArrayItemType | src/Generator/TypeResolver.php:154-181 | the item type from the doc comments of the property's declaring class; its precedence is stated by `ItemTypePrecedence` |
| TypeResolver.ItemTypePrecedence | src/Generator/TypeResolver.php:154-181 | the constructor's hint for the property wins whatever the class comment says; the class comment is read only when the constructor gives no hint; no other class's comments matter, so an inherited property takes its item type from the class that declares it |
| TypeResolver.GenerateArraySchema | src/Generator/TypeResolver.php:87-107 | the schema starts with type array, and it has `items` exactly when an item type is found; `items` then holds that type's fragment |
| TypeResolver.KeptBranches | src/Generator/TypeResolver.php:119-129 | the names of the named branches other than null, in branch order; membership is stated by `KeptBranchesMembers` |
| TypeResolver.KeptBranchesMembers | src/Generator/TypeResolver.php:119-129 | a name is kept exactly when some branch is a named type with that name other than null |
| TypeResolver.BranchSchemas | src/Generator/TypeResolver.php:119-140 | one fragment per kept branch, in branch order |
| TypeResolver.GenerateUnionTypeSchema | src/Generator/TypeResolver.php:115-147 | a single kept branch gives its fragment unwrapped; otherwise the only key is `oneOf`, listing the kept branches' fragments in order (an empty list when none is kept) |
| ConstraintExtractor.ApplyAttr | src/Generator/ConstraintExtractor.php:26-58 | the effect of one attribute on the schema and the flag; what it writes where is stated by `ApplyAttrGet`, `LengthGet` and `RangeGet` |
| ConstraintExtractor.Constrain | src/Generator/ConstraintExtractor.php:25-59 | the attributes applied in order; stated by `ConstrainGet`, `ConstrainRequired`, `ConstrainKeysExtend` and `OtherKeysPreserved` |
| ConstraintExtractor.ApplyConstraints | src/Generator/ConstraintExtractor.php:23-60 | the attribute loop leaves the schema and the flag that the attribute fold gives, applied in attribute order |
| ConstraintExtractor.ApplyAttribute | src/Generator/ConstraintExtractor.php:26-58 | one loop iteration has the effect of a single attribute of the fold |
| ConstraintExtractor.HasUuidConstraint | src/Generator/ConstraintExtractor.php:65-74 | true exactly when some attribute is Uuid |
| ConstraintExtractor.LastWrite | src/Generator/ConstraintExtractor.php:25-59 | no value exactly when no attribute writes the key; otherwise the value some attribute writes, with no later attribute writing that key |
| ConstraintExtractor.WritesOnlyConstraintKeys | src/Generator/ConstraintExtractor.php:28-58 | attributes write only format, minLength, maxLength, minimum and maximum |
| ConstraintExtractor.ApplyAttrGet | src/Generator/ConstraintExtractor.php:28-58 | after one attribute, each key holds what the attribute wrote there, or what it held before |
| ConstraintExtractor.LengthGet | src/Generator/ConstraintExtractor.php:32-42 | after a Length attribute, minLength and maxLength hold the bounds it gives and every other key is unchanged |
| ConstraintExtractor.RangeGet | src/Generator/ConstraintExtractor.php:43-53 | after a Range attribute, minimum and maximum hold the bounds it gives that are not null, and every other key is unchanged |
| ConstraintExtractor.ConstrainGet | src/Generator/ConstraintExtractor.php:25-59 | after all attributes, each key holds the last value written to it, or its original value when none was written |
| ConstraintExtractor.ConstrainRequired | src/Generator/ConstraintExtractor.php:28-29 | the flag ends true exactly when it started true or some attribute is NotBlank; no attribute clears it |
| ConstraintExtractor.ApplyAttrKeysExtend | src/Generator/ConstraintExtractor.php:28-58 | one attribute never moves or removes an existing key |
| ConstraintExtractor.ConstrainKeysExtend | src/Generator/ConstraintExtractor.php:25-59 | the original keys stay in place, and new keys are only appended |
| ConstraintExtractor.LastWriteAt | src/Generator/ConstraintExtractor.php:25-59 | the last attribute that writes a key decides its value |
| ConstraintExtractor.FormatWrites | src/Generator/ConstraintExtractor.php:30-57 | the value an attribute writes under format is its format: uuid, email or uri |
| ConstraintExtractor.LastFormatWins | src/Generator/ConstraintExtractor.php:30-57 | the resulting format is that of the last Uuid, Email or Url attribute |
| ConstraintExtractor.OnlyUuidFormat | src/Generator/ConstraintExtractor.php:30-31 | with Uuid present and neither Email nor Url, the format written is uuid |
| ConstraintExtractor.BoundPresentIff | src/Generator/ConstraintExtractor.php:32-53 | starting without a bound key, that key (minLength, maxLength, minimum or maximum) ends present exactly when some Length or Range attribute gives that bound (a null Range bound gives none) |
| ConstraintExtractor.OtherKeysPreserved | src/Generator/ConstraintExtractor.php:25-59 | keys other than the five constraint keys are never changed |
| ConstraintExtractor.UnrecognisedIgnored | src/Generator/ConstraintExtractor.php:25-59 | attributes the extractor does not recognise change nothing |
| DtoSchemaGenerator.SchemaName | src/Generator/DtoSchemaGenerator.php:113-118 | the schema name is a suffix of the class name with no backslash in it; when it is shorter than the class name, a backslash comes right before it |
| DtoSchemaGenerator.SchemaNameOfQualified | src/Generator/DtoSchemaGenerator.php:113-118 | the schema name of `Ns\Name` is Name, whatever the namespace |
| DtoSchemaGenerator.GenerateNestedDtoSchema | src/Generator/DtoSchemaGenerator.php:189-195 | a nested DTO fragment has the single key `$ref`, pointing at `#/components/schemas/` plus the DTO's schema name |
| DtoSchemaGenerator.TypeFragment | src/Generator/DtoSchemaGenerator.php:131-167 | the fragment of the declared type and whether it allows null; stated by `FragmentHasNoNullable`, `ClassPropertyIsRef` and `StringUuidFormat` |
| DtoSchemaGenerator.PropertySchema | src/Generator/DtoSchemaGenerator.php:125-181 | the property's schema and required flag; stated by `PropertyRequiredIff`, `PropertyNullableIff`, `ClassPropertyIsRef` and `StringUuidFormat` |
| DtoSchemaGenerator.FragmentHasNoNullable | src/Generator/DtoSchemaGenerator.php:131-167 | no type fragment carries a nullable key of its own |
| DtoSchemaGenerator.NamedTypeHasNoNullable | src/Generator/TypeResolver.php:95-103 | the fragment of a named type has no nullable key |
| DtoSchemaGenerator.NamedFragmentHasNoNullable | src/Generator/DtoSchemaGenerator.php:134-159 | the fragment of a property with a named type has no nullable key |
| DtoSchemaGenerator.PropertyRequiredIff | src/Generator/DtoSchemaGenerator.php:170-180 | a property is required exactly when it has NotBlank and its type does not allow null |
| DtoSchemaGenerator.PropertyNullableIff | src/Generator/DtoSchemaGenerator.php:172-175 | `nullable: true` is present exactly when the type allows null, and is absent otherwise, for class references too |
| DtoSchemaGenerator.ClassPropertyIsRef | src/Generator/DtoSchemaGenerator.php:142-144 | that reference survives the constraints |
| DtoSchemaGenerator.StringUuidFormat | src/Generator/DtoSchemaGenerator.php:155-158 | a string property with Uuid and no other format attribute gets the uuid format |
| DtoSchemaGenerator.FieldsOf | src/Generator/DtoSchemaGenerator.php:79-90 | the property map and the required list of the property loop; stated by `FieldKeys`, `FieldLookup` and `FieldRequiredIff` |
| DtoSchemaGenerator.ObjectSchema | src/Generator/DtoSchemaGenerator.php:74-99 | the object schema built for a class; stated by `ObjectSchemaShape` |
| DtoSchemaGenerator.ObjectSchemaShape | src/Generator/DtoSchemaGenerator.php:92-99 | the object schema has type object and the property map, and it has `required` exactly when some property is required; `required` then lists their names |
| DtoSchemaGenerator.InstanceNames | src/Generator/DtoSchemaGenerator.php:79-82 | every listed name is the name of a non-static property |
| DtoSchemaGenerator.FieldKeys | src/Generator/DtoSchemaGenerator.php:79-85 | with distinct property names, the property map has one key per non-static property, in declaration order |
| DtoSchemaGenerator.FieldLookup | src/Generator/DtoSchemaGenerator.php:84-85 | each non-static property's entry is its property schema |
| DtoSchemaGenerator.FieldRequiredIff | src/Generator/DtoSchemaGenerator.php:87-89 | a name is in `required` exactly when a non-static property with that name is required |
| DtoSchemaGenerator.CacheValidPut | src/Generator/DtoSchemaGenerator.php:104-105 | storing a class's object schema under its name keeps every cache entry truthful and its keys distinct |
| DtoSchemaGenerator.SchemaGenerator.constructor | src/Generator/DtoSchemaGenerator.php:36-47 | a new generator has an empty cache and an empty stack |
| DtoSchemaGenerator.SchemaGenerator.ExtractPropertySchema | src/Generator/DtoSchemaGenerator.php:125-181 | the method computes the property's schema and required flag as `PropertySchema` defines them |
| DtoSchemaGenerator.SchemaGenerator.Generate | src/Generator/DtoSchemaGenerator.php:54-108 | cases in order: a missing class gives `[]`; a cached class gives its cached schema; a class on the stack gives a `$ref`; otherwise the object schema is built and cached. The stack is restored, the cache stays truthful, and every non-cycle call returns the class's object schema |
| DtoSchemaGenerator.SchemaGenerator.CollectProperties | src/Generator/DtoSchemaGenerator.php:79-90 | the loop over the properties `getProperties` lists, inherited ones included, builds the property map and the required list that `FieldsOf` defines |
| DtoSchemaGenerator.SchemaGenerator.GetAllSchemas | src/Generator/DtoSchemaGenerator.php:202-212 | the cache re-keyed by schema name, in cache order |
| DtoSchemaGenerator.SchemaGenerator.ClearCache | src/Generator/DtoSchemaGenerator.php:217-221 | the cache and the stack are empty afterwards |
| DtoSchemaGenerator.GenerateTwice | src/Generator/DtoSchemaGenerator.php:60-63 | two successive calls of `generate` for a class not on the stack return the same schema |
| DtoSchemaGenerator.ByShortName | src/Generator/DtoSchemaGenerator.php:202-212 | the cache re-keyed by schema name; stated by `ByShortNameKeys` and `ByShortNameGet` |
| DtoSchemaGenerator.ByShortNameKeys | src/Generator/DtoSchemaGenerator.php:202-212 | the keys of `getAllSchemas` are exactly the schema names of the cached classes |
| DtoSchemaGenerator.ByShortNameGet | src/Generator/DtoSchemaGenerator.php:206-208 | when no other cached class has the same schema name, a class's schema is listed under its schema name |
| HandlerAnalyzer.ExtractRequestDto | src/Analyzer/HandlerAnalyzer.php:45-73 | the request DTO of a parameter list; stated by `RequestDtoIsFirstCandidate`, `RequestDtoIsClass` and `NonNamedSkipped` |
| HandlerAnalyzer.RequestDtoIsFirstCandidate | src/Analyzer/HandlerAnalyzer.php:45-73 | there is no request DTO exactly when no parameter is a named existing class other than the PSR-7 request and the scalars; otherwise it is the first such parameter's type |
| HandlerAnalyzer.RequestDtoIsClass | src/Analyzer/HandlerAnalyzer.php:56-69 | the request DTO is never the PSR-7 request, never a scalar, and always an existing class |
| HandlerAnalyzer.NonNamedSkipped | src/Analyzer/HandlerAnalyzer.php:50-52 | inserting a parameter that is not a named type anywhere in the list does not change the request DTO |
| HandlerAnalyzer.ExtractResponseDto | src/Analyzer/HandlerAnalyzer.php:78-94 | the response DTO of a return type; stated by `AnalyzedDtosExist` |
| HandlerAnalyzer.Analyze | src/Analyzer/HandlerAnalyzer.php:21-39 | the request and response DTO of a handler class; stated by `AnalyzedDtosExist` |
| HandlerAnalyzer.AnalyzedDtosExist | src/Analyzer/HandlerAnalyzer.php:21-94 | both DTOs are existing classes; a missing class or one without `__invoke` has neither; there is a response DTO exactly when `__invoke` returns a named existing class |
| RouteScanner.ExtractHandlerClass | src/Generator/RouteScanner.php:91-107 | a handler exactly when the last middleware entry is a name of an existing class, and then it is that name |
| RouteScanner.FirstModule | src/Generator/RouteScanner.php:158-165 | nothing exactly when every segment is Application, Handler or Command; otherwise the first segment that is none of them |
| RouteScanner.ExtractTag | src/Generator/RouteScanner.php:155-168 | the tag of a handler class; stated by `TagIff` |
| RouteScanner.TagIff | src/Generator/RouteScanner.php:155-168 | the tag is "API" exactly when every namespace segment is excluded; otherwise it is the first other segment plus "s" |
| RouteScanner.ClassBasename | src/Generator/RouteScanner.php:318-323 | the text after the last backslash or slash; stated by `Text.LastSegment` |
| RouteScanner.StrippedName | src/Generator/RouteScanner.php:172-173 | the basename with every "Handler" removed; stated by `StrippedNameOfPieces` |
| RouteScanner.GenerateSummary | src/Generator/RouteScanner.php:170-183 | the summary; stated by `SummaryWords` and `OperationIdOfPieces` |
| RouteScanner.GenerateOperationId | src/Generator/RouteScanner.php:185-191 | the operationId; stated by `OperationIdOfPieces` |
| RouteScanner.SummaryWords | src/Generator/RouteScanner.php:170-183 | the summary has no upper-case letter, and is its non-empty words joined by spaces; the words spell the lowered stripped name |
| RouteScanner.StrippedNameOfPieces | src/Generator/RouteScanner.php:172-173 | every "Handler" in the basename goes, wherever it stands: a basename made of pieces joined by "Handler", none of them containing it, is stripped to the pieces concatenated |
| RouteScanner.OperationIdOfPieces | src/Generator/RouteScanner.php:170-191 | the operationId of such a handler is the concatenated pieces with the first letter lowered, and the summary is the lowered words of that concatenation |
| RouteScanner.StrippedNameOfHandler | src/Generator/RouteScanner.php:172-173 | the basename of `Ns\XHandler`, with every "Handler" removed, is X when X contains no "Handler" |
| RouteScanner.OperationIdOfHandler | src/Generator/RouteScanner.php:170-191 | for `Ns\XHandler` the operationId is X with its first letter lowered, and the summary is X's lowered words |
| RouteScanner.LeadingHandlerRemoved | src/Generator/RouteScanner.php:185-191 | a leading "Handler" goes as well as the trailing one: `Ns\HandlerXHandler`, with no "Handler" in X, is stripped to X, and its operationId is X with the first letter lowered |
| RouteScanner.MatchAt | src/Generator/RouteScanner.php:199 | a match spans from an opening to a closing brace, and its name is the non-empty text after the brace, with no colon or closing brace in it |
| RouteScanner.Placeholders | src/Generator/RouteScanner.php:199-203 | every placeholder name found is non-empty, with no colon or closing brace in it |
| RouteScanner.PlaceholdersSkip | src/Generator/RouteScanner.php:199 | text without an opening brace adds no placeholder |
| RouteScanner.MatchAtBare | src/Generator/RouteScanner.php:199 | `{name}` matches at its brace and spans exactly the placeholder |
| RouteScanner.PlaceholdersBare | src/Generator/RouteScanner.php:199 | `{name}` yields name, and scanning resumes right after it |
| RouteScanner.MatchAtPattern | src/Generator/RouteScanner.php:199 | `{name:pattern}` matches at its brace and spans exactly the placeholder |
| RouteScanner.PlaceholdersPattern | src/Generator/RouteScanner.php:199 | `{name:pattern}` yields only name, and scanning resumes right after it |
| RouteScanner.ParameterSchema | src/Generator/RouteScanner.php:204-223 | the schema of a path parameter; stated by `ParameterSchemaShape` |
| RouteScanner.ParameterKeys | src/Generator/RouteScanner.php:214-219 | a parameter lists name, in, required and schema, in that order |
| RouteScanner.ParameterShape | src/Generator/RouteScanner.php:214-219 | every path parameter has its own name, is `in: path` and `required: true`, and carries its schema |
| RouteScanner.ParameterSchemaShape | src/Generator/RouteScanner.php:204-223 | id and uuid are uuid-formatted strings; otherwise a name containing `_id` or ending in `Id` is an integer, and any other name a string; only id and uuid get a format |
| RouteScanner.PathParameters | src/Generator/RouteScanner.php:196-229 | one parameter per placeholder, in path order |
| RouteScanner.GenerateRequestBody | src/Generator/RouteScanner.php:234-248 | the request body is required, and its JSON content references the DTO's schema |
| RouteScanner.SuccessCode | src/Generator/RouteScanner.php:258-262 | 201 exactly for POST, 204 exactly for DELETE, 200 for any other method (case-sensitive) |
| RouteScanner.WithErrorsShape | src/Generator/RouteScanner.php:264-293 | the success response comes first, followed by 400 Bad Request and 404 Not Found |
| RouteScanner.SuccessContentShape | src/Generator/RouteScanner.php:272-281 | a DTO success response has the description Success and JSON content referencing the DTO |
| RouteScanner.SuccessResponseShape | src/Generator/RouteScanner.php:267-308 | the success response has content exactly for a response DTO with a code other than 204; it is described as No Content only for a DTO with 204, and as Success otherwise |
| RouteScanner.GenerateResponses | src/Generator/RouteScanner.php:253-294 | the responses for a response DTO; stated by `ResponsesShape`, `WithErrorsShape` and `SuccessResponseShape` |
| RouteScanner.GenerateDefaultResponses | src/Generator/RouteScanner.php:299-312 | the responses without a DTO; stated by `ResponsesShape` |
| RouteScanner.Responses | src/Generator/RouteScanner.php:144-150 | the DTO responses for a truthy response DTO, the defaults otherwise; stated by `ResponsesShape` |
| RouteScanner.ResponsesShape | src/Generator/RouteScanner.php:253-312 | responses are the success code, 400 and 404; the success response has content exactly when there is a response DTO and the code is not 204, and its description is then Success (No Content for a DTO with 204) |
| RouteScanner.RequestBodyOf | src/Generator/RouteScanner.php:140-142 | an operation has a request body exactly when there is a request DTO and the method is POST, PUT or PATCH |
| RouteScanner.OperationBaseShape | src/Generator/RouteScanner.php:128-132 | an operation starts with operationId, summary and tags, where tags is a one-element list |
| RouteScanner.WithParametersShape | src/Generator/RouteScanner.php:135-137 | parameters are appended only when there are some, and no other key changes |
| RouteScanner.WithRequestBodyShape | src/Generator/RouteScanner.php:140-142 | a request body is appended only when there is one, and no other key changes |
| RouteScanner.AssembleKeys | src/Generator/RouteScanner.php:128-150 | the operation's keys, in order: the base keys, parameters if any, requestBody if any, then responses |
| RouteScanner.AssembleTailKeys | src/Generator/RouteScanner.php:140-150 | requestBody, when present, and responses are appended after the earlier keys |
| RouteScanner.AssembleKeepsOthers | src/Generator/RouteScanner.php:134-150 | the later assignments change no key but the three they set |
| RouteScanner.AssembleGets | src/Generator/RouteScanner.php:134-150 | the keys an operation adds hold the parameters, the request body and the responses |
| RouteScanner.Operation | src/Generator/RouteScanner.php:114-153 | the operation for one method; stated by `OperationShape` |
| RouteScanner.OperationShape | src/Generator/RouteScanner.php:114-153 | the operation's keys, in order: operationId, summary, tags, then parameters when the path has placeholders, requestBody when there is a request DTO and a body method, then responses; each key holds its part |
| RouteScanner.MethodOperations | src/Generator/RouteScanner.php:72-85 | the operations of a route with a resolved handler; stated by `MethodOperationsKeys`, `MethodOperationsUnique` and `LastMethodWins` |
| RouteScanner.MethodOperationsSnoc | src/Generator/RouteScanner.php:76-83 | one more method assigns its operation under its lower-cased name |
| RouteScanner.MethodOperationsKeys | src/Generator/RouteScanner.php:72-85 | a route's operation keys are exactly the lower-cased allowed methods |
| RouteScanner.MethodOperationsUnique | src/Generator/RouteScanner.php:72-85 | no method key is repeated |
| RouteScanner.LastMethodWins | src/Generator/RouteScanner.php:79-82 | a method's operation is that of the last allowed method with the same lower-cased name |
| RouteScanner.RouteOperations | src/Generator/RouteScanner.php:61-86 | the operations of a route; stated by `RouteOperationsEmptyIff` and `NoHandler` |
| RouteScanner.RouteOperationsEmptyIff | src/Generator/RouteScanner.php:61-86 | a route has no operations exactly when it has no accepted handler or no allowed methods |
| RouteScanner.NoHandler | src/Generator/RouteScanner.php:91-107 | empty middleware, or a last middleware entry that is not an existing class, gives no operations |
| RouteScanner.ContributesIff | src/Generator/RouteScanner.php:39-45 | a route contributes exactly when its path is truthy and it has operations |
| RouteScanner.ContributingPathsIff | src/Generator/RouteScanner.php:36-52 | a path is listed exactly when some route with that path contributes |
| RouteScanner.Scan | src/Generator/RouteScanner.php:29-55 | the paths object; stated by `ScanKeys`, `ScanUnique`, `ScanStepMerges` and `ScanStepSkips` |
| RouteScanner.ScanKeys | src/Generator/RouteScanner.php:29-55 | the paths object lists exactly the paths of the contributing routes |
| RouteScanner.ScanKeysOnly | src/Generator/RouteScanner.php:46-50 | every key of the paths object is a string path |
| RouteScanner.ScanUnique | src/Generator/RouteScanner.php:46-50 | no path is listed twice |
| RouteScanner.ScanStepMerges | src/Generator/RouteScanner.php:45-51 | a contributing route's methods overwrite the same methods of earlier routes with that path; other methods and other paths are kept |
| RouteScanner.ScanStepSkips | src/Generator/RouteScanner.php:37-45 | a route that does not contribute leaves the paths unchanged |
| RouteScanner.RouteScanner.constructor | src/Generator/RouteScanner.php:17-22 | the scanner holds the route table and the class registry it is given |
| RouteScanner.RouteScanner.ScanRoutes | src/Generator/RouteScanner.php:29-55 | the loop over the routes builds the paths object that `Scan` defines |
| RouteScanner.RouteScanner.AddPathOperations | src/Generator/RouteScanner.php:46-50 | the path item ends as the merge of the existing item (empty when the path is new) with the operations; nothing else changes |
| RouteScanner.RouteScanner.GenerateOperations | src/Generator/RouteScanner.php:61-86 | the loop over the allowed methods builds the route's operations, equal to `MethodOperations` |
| RouteScanner.RouteScanner.GenerateOperation | src/Generator/RouteScanner.php:114-153 | the assignments build the operation that `Operation` defines for the handler's names, the method, the path and the DTOs |
| RouteScanner.RouteScanner.ExtractPathParameters | src/Generator/RouteScanner.php:196-229 | the loop builds one parameter per placeholder, in order |
| OpenApiConfig.Defaults | src/Config/OpenApiConfig.php:33-42 | the constructor defaults; stated by `FromArrayEmpty` |
| OpenApiConfig.FromArray | src/Config/OpenApiConfig.php:49-81 | the configuration read from an array; stated by `FromArrayToArray`, `ToArrayFromArrayArrays`, `ToArrayFromArrayScalars`, `FromArrayEmpty` and `FromArrayOnlyReadsConfigKeys` |
| OpenApiConfig.ToArray | src/Config/OpenApiConfig.php:127-138 | the configuration as an array; stated by `ToArrayKeys` and `ToArrayGets` |
| OpenApiConfig.ToArrayKeys | src/Config/OpenApiConfig.php:127-138 | `toArray` lists the seven settings once each, in declaration order |
| OpenApiConfig.ToArrayGets | src/Config/OpenApiConfig.php:127-138 | each setting's key holds that setting |
| OpenApiConfig.FromArrayToArray | src/Config/OpenApiConfig.php:49-81 | `fromArray(toArray(c))` is c |
| OpenApiConfig.ToArrayFromArrayArrays | src/Config/OpenApiConfig.php:52-64 | after `fromArray` and `toArray`, an array setting given as an array is kept, and any other value becomes the empty array |
| OpenApiConfig.ToArrayFromArrayScalars | src/Config/OpenApiConfig.php:66-70 | after the round trip, a string output path and a boolean JSON flag are kept; any other value or a missing key gives the defaults `docs/openapi.yaml` and true |
| OpenApiConfig.FromArrayEmpty | src/Config/OpenApiConfig.php:33-81 | `fromArray([])` gives the constructor's defaults |
| OpenApiConfig.FromArrayOnlyReadsConfigKeys | src/Config/OpenApiConfig.php:49-81 | configurations that agree on the seven setting keys give the same settings |
| OpenApiConfig.Default | src/Config/OpenApiConfig.php:110-122 | the default configuration; stated by `DefaultShape` |
| OpenApiConfig.DefaultShape | src/Config/OpenApiConfig.php:110-122 | the default has title, version and description in its info, and one local server at index 0; every other setting is the constructor default |
| Fixtures.TestHandlerDtos | tests/Unit/Analyzer/HandlerAnalyzerTest.php:31-43 | TestHandler's request and response DTO are both ExampleDto, because the PSR-7 request parameter is skipped |
| Fixtures.NoDtos | tests/Unit/Analyzer/HandlerAnalyzerTest.php:45-59 | a class that does not exist and a class without `__invoke` have no DTOs |
| Fixtures.StatusEnumSchema | tests/Unit/Generator/TypeResolverTest.php:59-73 | StatusEnum is a string schema listing draft, active and archived, in that order |
| Fixtures.NestedAddressSchemas | tests/Unit/Generator/DtoSchemaGeneratorEnhancedTest.php:69-88 | on ComplexDto, primaryAddress is exactly a `$ref` to AddressDto, and billingAddress the same reference followed by `nullable: true`, and is not required |
| Fixtures.TypedArraySchemas | tests/Unit/Generator/DtoSchemaGeneratorEnhancedTest.php:90-118 | on ComplexDto, with the item types its constructor comment declares, addresses is an array of `$ref` to AddressDto and tags an array of strings |

## Left out

- The console command `GenerateOpenApiCommand`, YAML/JSON output and document assembly: these are file I/O around the core.
- `OpenApiConfig::fromYamlFile`: it reads and parses a file; only its `fromArray` step is modelled.
- `SecuritySchemeGenerator` is not part of this model.
- `parseArrayItemTypeFromDoc` (its regular expression and the current-namespace fallback) is a parameter of the model (`DocHint`); only the precedence of `extractArrayItemType` is modelled.
- PHP reflection is replaced by the finite class registry. Autoloading, interfaces and traits are treated as "not a class".
- The `middleware` setting given as a single value rather than an array is modelled as a one-element pipeline.
- Route-table entries that are not arrays, and non-string entries in `allowed_methods`, are not modelled. The model's routes and methods are typed.
- `class_basename` and `basename` are modelled as the text after the last `\` or `/`. The trailing-slash and locale edge cases of `basename` are not modelled.
- PHP's conversion of numeric-string array keys to integers is not modelled. Keys stay as given.
- Exceptions thrown while instantiating a Length or Range attribute are not modelled. They would also leave the processing stack unpopped.
- `strtolower` is modelled on ASCII letters only, which matches PHP 8.2 and later.
- The path, operationId and summary examples of the route tests are covered by the general lemmas `RouteScanner.PlaceholdersBare`, `RouteScanner.PlaceholdersPattern` and `RouteScanner.OperationIdOfHandler`, not by concrete string cases.
- Text.RemoveAll: its own contract states only that the text does not grow and is unchanged when the pattern does not occur. That every occurrence is deleted is stated by `Text.RemoveAllMid` and `Text.RemoveAllJoin` for patterns without a border, which "Handler" is; overlapping occurrences of other patterns are not characterised.
- A property whose declaring class is missing from the registry has no item type. Reflection never reports such a property.
- The handler-derived names (operationId, summary, tag) are computed once per handler by `RouteScanner.HandlerNames`. The source computes them per method, with the same result.
