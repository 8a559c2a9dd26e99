# FastCBV class-based views, modelled in Dafny

FastCBV lets a FastAPI application declare a *view set*: a class whose
handler methods become HTTP routes. This project models the core of that
library.

- **Compilation.** The metaclass `ViewSetMetaClass` runs when a view set is
  declared. It validates the class's configuration (`model`, `schema`,
  `pk_type`, `views`). When the configuration is valid, it fills in each
  standard handler (`all`, `create`, `get`, `update`, `delete`) that `views`
  lists and the class does not write itself.
- **Factory.** The handler factory makes those handlers, and a `filter`
  handler with a synthesised signature. The model gives each one its route
  metadata, docstring, call signature and body.
- **Discovery.** `BaseViewSet` finds every attribute that carries route
  metadata: it walks `dir(cls)` and sorts stably by path fragment.
- **Registration.** `register` derives the route prefix from the class name
  (`CompanyViewSet` becomes `/company`). It completes each handler's summary
  and tags and adds one router entry per handler. It is idempotent through an
  inherited marker. Each routed call is answered by the same-named handler of
  the original class.
- **Display name.** `User.full_name` of the example application.

Layout:

- `basics.dfy`: `Option` and scalar values.
- `text.dfy`: ASCII case mapping, `strip`, `title` and `replace`.
- `lex.dfy`: Python string order, and the sorted listing `dir()` returns.
- `actions.dfy`: handlers and their `__fast_view__` metadata.
- `storage.dfy`: the generated bodies, run against an in-memory table that
  stands in for the ORM.
- `factory.dfy`: the six generators.
- `classes.dfy`: class bodies, class objects and attribute lookup.
- `compiler.dfy`: the metaclass.
- `discovery.dfy`: `__get_views`.
- `prefix.dfy`: the prefix regexes, each written as the scan `re.sub` performs
  and proved equal to "insert `_` where a match starts".
- `registration.dfy`: `register`, `__build_fast_view_params` and the route
  wrapper.
- `users.dfy`: `full_name`.
- `scenarios.dfy` and `example_app.dfy`: the example application's view sets.

Two behaviours of the code are worth stating up front:

- **Prefix derivation is not idempotent.** `Viewsetviewset` derives
  `viewset`, and `viewset` derives the empty prefix
  (`Scenarios.DerivePrefixIsNotIdempotent`). Derivation is deterministic, and
  it is a fixed point on every lower-case name that neither starts nor ends
  with `_` and does not end in `viewset`/`viewsets`
  (`Prefix.DerivePrefixFixesPlainNames`); `_a`, for one, derives `a`.
- **The metaclass never generates `filter`.** It fills only the five
  standard names, so `views["filter"]` is never read: a `filter` entry in
  `views`, as `CompanyViewSet` has, adds nothing
  (`Compiler.CompileNeverAddsFilter`). `generate_filter` is modelled on its
  own.

## Model

| member | source | states |
|---|---|---|
| Compiler.Check | fast_cbv/viewsets.py:61-106 | the configuration check's verdict; when attributes are missing, the "lacks" warning is logged exactly when some essential attribute is present |
| Compiler.CheckReportsFirstFailure | fast_cbv/viewsets.py:71-106 | the checks run in source order (essentials, model, schema, pk_type, views) and the first failure decides: the reported check fails and every earlier check passes; the verdict is Valid exactly when no check fails |
| Compiler.Generator | fast_cbv/viewsets.py:39-52 | the handler made for a standard name is the factory's generator for that name: named after it, with the operation of that name, the class's model and schema, the model's docstring, the `views` entry as input type exactly for `create` and `update`, and `pk_type` as key type exactly for `get`, `update` and `delete`; and, per name, the route (path, method, response model, 404 documentation) and parameter list that name's generator gives |
| Compiler.GeneratedHandlersAreBound | fast_cbv/viewsets.py:39-52 | because `_check_views` admits only subclasses of tortoise's `PydanticModel` as `create` and `update` inputs, every generated handler reads a request body exactly when its route is a POST or PATCH, and reads `pk` from the path |
| Compiler.FillOne | fast_cbv/viewsets.py:39-52 | one fill step adds the name only when `views` lists it, binds it to the factory's handler, and keeps every existing attribute |
| Compiler.FillGaps | fast_cbv/viewsets.py:39-52 | the fill steps add exactly the listed names, never replace an attribute, and bind every added name to the factory's handler for it |
| Compiler.Compile | fast_cbv/viewsets.py:28-54 | `BaseViewSet`, a class with `CBVTransponder` among its bases, and an invalid configuration keep their body as written; otherwise the namespace is the body plus exactly the standard views that `views` lists, each bound to the factory's handler, and no body attribute replaced |
| Compiler.GapIsFilled | fast_cbv/viewsets.py:39-52 | a standard name that `views` lists and the body does not define is bound to the factory's handler |
| Compiler.CompileNeverAddsFilter | fast_cbv/viewsets.py:39-52 | `filter` is in the compiled namespace if and only if the body defines it |
| Compiler.HandWrittenTakesPrecedence | fast_cbv/viewsets.py:39-52 | an attribute the body defines is kept as written, even when `views` names it |
| Compiler.CompileKeepsConfiguration | fast_cbv/viewsets.py:28-54 | compilation neither adds, removes nor changes a configuration attribute |
| Compiler.CompiledConfigurationChecksAlike | fast_cbv/viewsets.py:61-106 | the compiled namespace gets the same verdict as the body |
| Compiler.CompileWithoutGapsIsIdentity | fast_cbv/viewsets.py:39-54 | a body that already defines every standard view `views` lists is left as it is |
| Compiler.CompileIsIdempotent | fast_cbv/viewsets.py:28-54 | compiling the compiled namespace again changes nothing |
| Factory.GenerateAll | fast_cbv/factory.py:16-33 | `all`: `GET /all`, a list of the schema, only `self`, docstring from the model name, body lists the model |
| Factory.GenerateCreate | fast_cbv/factory.py:36-53 | `create`: `POST ""`, one schema instance, a `body` parameter of the input schema, docstring from the model name |
| Factory.GenerateGet | fast_cbv/factory.py:56-74 | `get`: `GET /{pk}`, a documented 404, a `pk` parameter of the key type, docstring from the model name |
| Factory.GenerateUpdate | fast_cbv/factory.py:77-99 | `update`: `PATCH /{pk}`, a documented 404, `pk` then `body` parameters, docstring from the model name |
| Factory.GenerateDelete | fast_cbv/factory.py:102-122 | `delete`: `DELETE /{pk}`, a documented 404, a `pk` parameter, docstring from the model name |
| Factory.FilterSignature | fast_cbv/factory.py:148-154 | `self`, then one keyword-only parameter per query parameter, in order, with its default and type |
| Factory.GenerateFilter | fast_cbv/factory.py:125-158 | `filter`: `GET /filter`, a list of the schema, the synthesised signature, docstring from the model name, and a body that closes over the query parameters |
| Factory.ReadFilterSignature | fast_cbv/factory.py:148-156 | reads a parameter list of the filter shape back into query parameters, one per parameter after `self` |
| Factory.FilterSignatureRoundTrip | fast_cbv/factory.py:148-156 | reading back a synthesised signature gives the query parameters it was built from |
| Factory.ReadFilterSignatureIsExact | fast_cbv/factory.py:148-156 | every parameter list of the filter shape is the synthesised signature of what it reads back as |
| Factory.DocRoundTrip | fast_cbv/factory.py:31-157 | a generated docstring determines both the operation and the model name, so two handlers share one only when both are the same |
| Factory.GeneratedDocs | fast_cbv/factory.py:31-157 | each generator's docstring reads back as its own operation on the model's name |
| Factory.CrudParamsAreBound | fast_cbv/factory.py:27-122 | with an input type FastAPI reads from a request body (a pydantic model, a dataclass or `dict`), exactly the POST and PATCH handlers among the five read a request body, and the path placeholders are exactly the parameters read from the path |
| Factory.CreateWithPlainInputReadsNoBody | fast_cbv/factory.py:36-53 | with a scalar input type (`int`, `str`, ...), the `create` handler's `body` would be read from the query string, so its POST route would read no body |
| Factory.FilterParamsAreBound | fast_cbv/factory.py:140-156 | when every query parameter's type is a scalar type, every synthesised filter parameter is read from the query string, and nothing from the path or body |
| Factory.FilterWithBodyTypedParameterReadsBody | fast_cbv/factory.py:140-156 | a query parameter typed by a body class (`dict`, a pydantic model) is read from the request body, so the `filter` GET route reads a body and is not well bound |
| Factory.Run | fast_cbv/factory.py:28-146 | a generated body always answers, and answers what the store operation of its kind answers (`all` lists, `create` inserts under the new key, `get`/`update`/`delete` act on `pk`, `filter` selects by the keyword arguments); `all`, `get` and `filter` never change the table; a failure changes nothing; `create` adds the new key, `update` keeps the keys, `delete` removes the key |
| Factory.OnlyCreateAndDeleteChangeKeys | fast_cbv/factory.py:28-146 | only `create` and `delete` change which keys the table holds |
| Storage.SetFields | fast_cbv/factory.py:93 | `exclude_unset=True` keeps exactly the explicitly set fields, with their values |
| Storage.ListAll | fast_cbv/factory.py:28-29 | `all` answers every row and changes nothing |
| Storage.CreateRow | fast_cbv/factory.py:49-50 | `create` stores and answers the body's fields under the new key and keeps every other row; a key already taken is an integrity error that changes nothing |
| Storage.GetRow | fast_cbv/factory.py:69-70 | `get` answers the row under the key, or not-found, and never changes the table |
| Storage.UpdateRow | fast_cbv/factory.py:91-95 | `update` of a missing key is not-found; otherwise it overwrites exactly the explicitly set fields of that row, keeps its other fields and every other row, and answers the saved row |
| Storage.DeleteRow | fast_cbv/factory.py:115-118 | `delete` of a missing key is not-found; otherwise it removes exactly that row and answers it as it was before deletion |
| Storage.ConditionsMeanSuppliedEqualities | fast_cbv/factory.py:142-145 | the conjunction the loop builds holds of a row exactly when the row agrees with every query parameter supplied with a non-None value |
| Storage.FilterKeepsExactlyAgreeingRows | fast_cbv/factory.py:141-146 | `filter` answers exactly the rows that agree with every supplied parameter |
| Storage.FilterIsPartOfAll | fast_cbv/factory.py:141-146 | every `filter` answer is part of what `all` answers |
| Storage.FilterWithoutParametersIsAll | fast_cbv/factory.py:142-146 | with no parameter supplied, `filter` answers what `all` answers |
| Storage.FilterOnOneParameter | fast_cbv/factory.py:142-146 | with one parameter supplied, `filter` answers exactly the rows whose field equals the supplied value |
| Storage.FilterIgnoresOtherArguments | fast_cbv/factory.py:143-145 | keyword arguments that are not query parameters do not change the filter |
| Storage.DeleteThenGetIsNotFound | fast_cbv/factory.py:115-118 | `delete` answers what `get` answered before, and a later `get` of the key is not-found |
| Storage.CreateThenGet | fast_cbv/factory.py:49-50 | `get` after a successful `create` answers the created row |
| Storage.UpdateWithNothingSetKeepsRow | fast_cbv/factory.py:91-95 | an update body that sets no field leaves the table unchanged |
| Storage.PartialUpdateExample | fast_cbv/factory.py:91-95 | `{username: "a", name: "b"}` patched with only `username: "c"` set becomes `{username: "c", name: "b"}` |
| Classes.Resolve | fast_cbv/viewsets.py:122 | attribute lookup on a class finds its own attributes first, then inherited ones, and nothing else |
| Lex.SortedKeys | fast_cbv/viewsets.py:121 | `dir()`'s listing holds each attribute name once, strictly ascending |
| Lex.StrictlySortedUnique | fast_cbv/viewsets.py:121 | there is only one strictly ascending listing of a set of names |
| Discovery.Collect | fast_cbv/viewsets.py:121-124 | the loop keeps exactly the listed names that carry route metadata, each with its own function and metadata |
| Discovery.CollectKeepsNameOrder | fast_cbv/viewsets.py:121-124 | collecting from `dir()`'s listing keeps the handlers strictly ascending by name |
| Discovery.SortByPath | fast_cbv/viewsets.py:127 | the sort keeps the same entries and the same length |
| Discovery.SortByPathOrdered | fast_cbv/viewsets.py:127 | stably sorting a name-ascending list by path orders it by path, then by name among equal paths |
| Discovery.OrderedUnique | fast_cbv/viewsets.py:127 | two lists ordered by (path, name) with the same entries are equal |
| Discovery.DiscoverFindsEveryView | fast_cbv/viewsets.py:119-128 | discovery lists every handler the class has, own or inherited, once each, and nothing else, ascending by path and by name among equal paths |
| Discovery.DiscoverIsDeterminedByOrder | fast_cbv/viewsets.py:119-128 | any list with those properties is the discovery result, so every stable sort by path gives the same answer |
| Prefix.StripViewSetSuffix | fast_cbv/viewsets.py:168 | the result is a prefix of the name; something is dropped exactly when the name ends in `viewset` or `viewsets` in some case, and what is dropped is that ending |
| Prefix.StripViewSetSuffixRemovesTheSuffix | fast_cbv/viewsets.py:110 | a `viewsets` ending in any case loses all eight letters (the `s?` is greedy), a `viewset` ending loses seven |
| Prefix.SplitWordsInsertsAtWordStarts | fast_cbv/viewsets.py:169 | the `[A-Z][a-z]+` substitution inserts `_` exactly before each capital that is followed by a small letter |
| Prefix.SplitCapitalRunsInsertsAtRunStarts | fast_cbv/viewsets.py:170 | the `[A-Z]{2,}` substitution inserts `_` exactly before the first capital of each run of two or more |
| Prefix.DerivePrefixShape | fast_cbv/viewsets.py:168-170 | a derived prefix has no capital and neither starts nor ends with `_` |
| Prefix.DerivePrefixKeepsLetters | fast_cbv/viewsets.py:168-170 | derivation only inserts or trims `_` and lower-cases: the prefix's other characters are those of the name without its suffix, lower-cased |
| Prefix.DerivePrefixFixesPlainNames | fast_cbv/viewsets.py:168-170 | a lower-case name without surrounding `_` and without a `viewset`/`viewsets` ending derives to itself |
| PrefixOfWords.PascalNameDerivesSnakeCase | fast_cbv/viewsets.py:168-170 | capitalised words followed by a seven-letter `viewset` suffix in any case derive to the words in snake case |
| Prefix.RoutePath | fast_cbv/viewsets.py:167-171 | with automatic paths the route is `/`, a segment free of capitals and of surrounding `_`, then the decorator's path unchanged; without them it is the decorator's path |
| Registration.DefaultSummaryShape | fast_cbv/viewsets.py:158-159 | a default summary has no `_`, no surrounding white space, and a capital at exactly the start of each word |
| Registration.CompleteTags | fast_cbv/viewsets.py:161-164 | the completed tags are the declared list (none counts as empty) with the class name appended |
| Registration.BuildRoute | fast_cbv/viewsets.py:156-173 | a declared summary is kept and a missing one defaulted; tags are completed; the path is prefixed as `auto_view_path` says; the method, response model and responses are passed through; the endpoint is the class and handler name |
| Registration.RoutesOf | fast_cbv/viewsets.py:146-153 | one route per discovered handler, in discovery order |
| Registration.Register | fast_cbv/viewsets.py:131-153 | registration is skipped when the class or an ancestor is marked or `CBVTransponder` is an ancestor; otherwise it marks the class and appends its routes after the existing ones, which are kept |
| Registration.RegisterIsIdempotent | fast_cbv/viewsets.py:133-134 | registering the same class twice adds its routes once |
| Registration.SubclassOfRegisteredIsSkipped | fast_cbv/viewsets.py:133-144 | after a class is registered, registering a subclass adds nothing |
| Registration.RoutesOfEveryView | fast_cbv/viewsets.py:146-153 | a class has a route for a name if and only if the name is one of its handlers, and every route calls into the class |
| Registration.DispatchRunsTheDiscoveredHandler | fast_cbv/viewsets.py:176-181 | each route a registration adds answers a call exactly as the handler it was built from does |
| Text.Title | fast_cbv/viewsets.py:159 | `title()` keeps non-letters and capitalises exactly the letters that start a word |
| Users.OrEmpty | examples/models.py:36-37 | `part or ''`: the part when it is a non-empty string, otherwise the empty string |
| Users.Shown | examples/models.py:35 | `f"{part}"`: the part, or `None` when it is missing |
| Users.FullName | examples/models.py:34-38 | with neither name part set, the display name is the user name, unstripped; when either part looks Chinese, family name then given name with no separator, stripped; otherwise given name, a space and family name, stripped |
| Users.OnePartIsThatPartStripped | examples/models.py:34-37 | with exactly one part set, the display name is that part, stripped, with no stray separator |
| Users.BothPartsJoinedExactly | examples/models.py:34-37 | with both parts set and unpadded, nothing is stripped from the joined name |
| Users.DependsOnlyOnTestedTexts | examples/models.py:35 | the Chinese test only sees the string forms of the two parts, `None` included |
| Users.TestMattersOnlyWithBothParts | examples/models.py:34-37 | with at most one part set, the display name does not depend on the Chinese test |
| ExampleApp.UserViewSetIsLeftAsWritten | examples/viewsets.py:19-56 | a view set declaring no configuration logs no warning and keeps its hand-written handlers as written |
| ExampleApp.CompanyConfigIsValid | examples/viewsets.py:62-77 | `CompanyViewSet`'s configuration passes every check |
| ExampleApp.FullyGeneratedHandlers | fast_cbv/viewsets.py:39-52 | a view set whose `views` lists all five standard names and which writes none has exactly those five handlers, each from the factory |
| ExampleApp.FullyGeneratedDiscoveryOrder | fast_cbv/viewsets.py:119-128 | such a view set's handlers are discovered as create, all, delete, get, update |
| ExampleApp.FullyGeneratedRoutePaths | fast_cbv/viewsets.py:146-171 | such a view set is routed at its prefix, at `/all` below it, then three times at `/{pk}` below it |
| ExampleApp.FullyGeneratedGetRoute | fast_cbv/factory.py:56-74 | once such a view set is registered, its fourth route is `get`, and a call on it answers exactly what the store's `get` answers: the row under `pk`, or not-found |
| ExampleApp.BaseInheritanceKeepsAutoViewPath | fast_cbv/viewsets.py:116 | a view set that inherits only `BaseViewSet`'s defaults and does not set `auto_view_path` has automatic paths |
| ExampleApp.CompanyRoutes | examples/viewsets.py:62-80 | `CompanyViewSet` is routed at `/company`, `/company/all` and three times `/company/{pk}`, in the order create, all, delete, get, update; its `filter` entry adds nothing |
| Scenarios.UserViewSetPrefix | examples/viewsets.py:19 | `UserViewSet` routes under `user` |
| Scenarios.CompanyViewSetPrefix | examples/viewsets.py:62 | `CompanyViewSet` routes under `company` |
| Scenarios.PositionViewSetPrefix | examples/viewsets.py:83 | `PositionViewSet` routes under `position` |
| Scenarios.QuerySetTestViewSetPrefix | examples/viewsets.py:101 | `QuerySetTestViewSet` routes under `query_set_test` |
| Scenarios.DependsTestViewSetPrefix | examples/viewsets.py:136 | `DependsTestViewSet` routes under `depends_test` |
| Scenarios.DerivePrefixIsNotIdempotent | fast_cbv/viewsets.py:168-170 | deriving from `Viewsetviewset` gives `viewset`, and deriving again gives the empty prefix |

## Left out

- Compiler.Check: requires `IssubclassSafe`, which rules out every body in which some `issubclass` call of the checks could be given a value that is not a class. In the source such a call raises `TypeError` while the class is being created. But `_check_views` walks `views` in insertion order and returns False at the first bad entry, so the source answers False without raising for some of the excluded bodies: `views = {"create": <a class that is not a schema>, "update": None}` is one. Those bodies, and the `TypeError`, are not modelled. `Compiler.Compile` and `Compiler.Generates` carry the same precondition.
- Logging: only whether the "lacks" warning is logged is modelled (`Lacks(warned)`). Every other failing check logs its fixed message, which the verdict implies. Message texts are not modelled.
- `views` is a map, not an ordered dict. Within the bodies `IssubclassSafe` admits, every entry `_check_views` inspects is a class, it answers False at the first bad one, and every bad entry logs the same message, so order does not change the verdict there. The fill steps do not depend on order either.
- The ORM and pydantic: a table of rows keyed by primary key stands in for `Model`, and schema projection is the identity. Key assignment on `create` is a parameter. Fields are not declared: a `filter` query parameter whose name is not a field of the model makes the ORM raise `FieldError` when the query runs, while in the model a supplied value for it matches no row, so the filter answers an empty list instead of failing. Query names with ORM lookup suffixes (`age__gt`) are compared as plain field equality. Schema validation and `HTTPNotFoundError` rendering are not modelled. FastAPI's request binding is modelled only by `Factory.BindingOf`, for the kinds of parameter the generators write: a path placeholder, a parameter annotated with a class, and a keyword-only parameter with a default. A class is one of four kinds: a tortoise `Model`, a tortoise `PydanticModel` (the only kind the view-set checks accept as a schema), another class read from the body (a plain pydantic `BaseModel`, a dataclass, `dict`), or a scalar type read from the query string. FastAPI refuses a route whose parameter is annotated with a tortoise `Model`; the model reads such a parameter from the query string. Its other rules (`Depends`, `Body(...)`, `Query(...)`, lists, `Optional` unions) are not modelled.
- async/await and the event loop: bodies are pure functions of the table and the call.
- Storage.FilterRows: states only that the table is unchanged and that it answers rows. Which rows it answers is stated by `Storage.FilterKeepsExactlyAgreeingRows` and the other filter lemmas.
- Discovery.SortByPath: states equal length and equal membership rather than a multiset permutation. Discovered entries are distinct by name, so the two agree here.
- Hand-written handler bodies (the example's `UserViewSet`, `QuerySetTestViewSet` and `DependsTestViewSet` handlers) are not interpreted: dispatching to one yields no outcome.
- Case mapping, `strip`, `title` and `dir()`'s ordering work on ASCII letters and ASCII white space only. Unicode case folding is not modelled.
- Prefix.StripViewSetSuffix: does not model two behaviours of Python's regular expressions. First, `$` also matches just before a final newline, so the source turns `XViewSet\n` into `X\n` while the model leaves that name unchanged; a `class` statement cannot produce such a name, only `type()` can. Second, `re.IGNORECASE` also equates some non-ASCII letters with ASCII ones (`ſ` with `s`, for one); the model compares ASCII case only.
- In-place mutation of the `__fast_view__` dicts: metadata completion is a pure function applied once per registration. In the source, two registered classes that share one inherited handler object would see each other's completed path and tags. Likewise, one function object bound under two names in one class is listed twice by `dir`, so its metadata is completed twice: the path gets the prefix twice (`/company/company/x`) and the class name ends up in `tags` twice. The model completes each discovered entry from the declared metadata, once.
- Non-list, non-None `tags` values, which the source leaves alone, are not representable: tags are an optional list.
- The synthesised `...Transponder` class and its instance are not modelled as objects. The marker is a set of registered class names, and a route's endpoint names the original class and handler. A fresh instance per call holds no state of its own, so dispatch looks the handler up on the class.
- Class identity is by name. The method resolution order is given per class object: its inherited namespace and its ancestors.
- fast_cbv/decorators.py (the `Action` decorator) is not part of this model: its effect is the `ActionMeta` a function carries. examples/pydantics.py and the rest of examples/models.py only supply class names.
- The uid generation, password hashing and arrow time zones of the example's hand-written handlers are outside the core.
