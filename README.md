# forge: the `#[contract]` macro and the CLI utilities, modelled in Dafny

forge turns a Rust module holding a Dusk smart contract into its deployable form. The
`#[contract]` attribute macro reads the module and makes three things from it:

- the contract's schema;
- `extern "C"` wrappers, one per exported method;
- a data-driver module that converts each function's inputs and outputs, and each
  event's payload, between JSON and the contract's binary encoding.

The CLI builds the contract, renders new projects from templates, and drives a compiled
data-driver module through WebAssembly memory. The bridge test types pack amounts and
DuskDS keys into withdrawal requests.

This project models that core in Dafny. Every step of the macro is a function or method
over a datatype model of the parsed syntax (`Syntax`):

- import extraction (`ImportParse`);
- descriptors (`Descriptors`);
- `emit` and `feed` visitors (`Events`);
- signature validation (`Validate`);
- module extraction (`Extract`);
- type resolution (`Resolve`);
- schema and wrapper generation (`Generate`);
- the data-driver match tables (`DataDriver`);
- the macro itself (`ContractMacro`).

The CLI parts are:

- the data-driver WebAssembly host, a class over a byte array (`DataDriverWasm`);
- the project template engine (`Engine`);
- the build runner (`BuildRunner`);
- hex output (`Hex`);
- the schema lookups (`Schema`).

The bridge types are in `BridgeTypes`. Shared string and sequence facts are in `Common`.

Loops in the source are methods with loop invariants, each proved equal to a
specification function. The properties are proved about those functions:

- first-error reporting;
- first-match dispatch;
- de-duplication by topic;
- round trips (hex, TOML escaping, big-endian amounts, key framing, EVM addresses);
- the layout of the data-driver's memory buffers.

Three places where the source does not do what it evidently means are listed under
"Findings". Each has an as-written member that shows the problem and a corrected member
that the rest of the model uses.

## Model

| member | source | states |
|---|---|---|
| ImportParse.GroupIsConcatenation | contract-macro/src/parse.rs:76-92 | a `{a, b, ...}` group yields the concatenation of its members' imports in order, and raises the glob or relative flag exactly when some member does |
| ImportParse.PathTreeExtraction | contract-macro/src/parse.rs:19-35 | walking a path of segments qualifies the leaf with them joined by `::`; the relative flag is raised only when the first segment at the root is `self`, `super` or `crate` |
| ImportParse.PlainUse | contract-macro/src/parse.rs:36-67 | `use a::b::C;` yields exactly one import named `C` (or its alias with `as`) whose path is the full `::`-joined path, and no glob flag |
| ImportParse.GlobUse | contract-macro/src/parse.rs:68-75 | `use a::*;` yields no import and raises the glob flag |
| ImportParse.GlobFlag | contract-macro/src/parse.rs:68-75 | the glob flag is raised exactly when the use tree contains a glob leaf |
| ImportParse.RelativeFlag | contract-macro/src/parse.rs:22-24 | the relative flag is raised exactly when, at the root, the path starts with `self`, `super` or `crate` |
| ImportParse.ImportCount | contract-macro/src/parse.rs:19-93 | a use tree yields exactly one import per name or rename leaf |
| ImportParse.MergeAllOf | contract-macro/src/parse.rs:76-92 | merging the extractions of a group concatenates their imports and ORs their flags |
| Syntax.ParsePath | contract-macro/src/extract.rs:264-266 | a topic string that parses as a path gives identifiers that, joined by `::`, give the string back |
| Syntax.ParsePathOfJoin | contract-macro/src/extract.rs:264-266 | conversely, any non-empty list of identifiers joined by `::` parses back into exactly that list |
| Syntax.ContractList | contract-macro/src/lib.rs:339-350 | a `#[contract(...)]` attribute with a token list yields exactly its meta's tokens, and no other attribute yields anything |
| Syntax.PathTy | contract-macro/src/extract.rs:48-77 | a path of identifiers becomes a path type with one segment per identifier; segment `i` is identifier `i` without generic arguments |
| Descriptors.ExtractReceiver | contract-macro/src/lib.rs:302-312 | the receiver is none exactly when the first input is not `self`, and mutable exactly when it is a `&mut self` or a `mut self` |
| Descriptors.ExtractDocComment | contract-macro/src/lib.rs:315-336 | no doc comment exactly when no attribute carries doc text; otherwise the trimmed doc lines joined by single spaces |
| Descriptors.DocLinesBound | contract-macro/src/lib.rs:315-336 | at most one doc line per attribute |
| Descriptors.DocLinesEmpty | contract-macro/src/lib.rs:315-336 | there are no doc lines exactly when no attribute has doc text |
| Descriptors.DocCommentConcat | contract-macro/src/lib.rs:315-336 | the comment of two attribute runs is the first run's text, a space, then the second run's; attributes without doc text change nothing |
| Descriptors.HasCustomAttribute | contract-macro/src/lib.rs:339-350 | true exactly when some `contract(...)` attribute's token text contains `custom` |
| Descriptors.ExtractFeedsAttribute | contract-macro/src/lib.rs:359-404 | the feed type is the one named by the first attribute that names one; none exactly when no attribute does |
| Descriptors.GenerateArgExpr | contract-macro/src/lib.rs:409-418 | a `&mut` parameter is passed as `&mut name`, a `&` parameter as `&name`, a by-value parameter as `name` |
| Descriptors.ArgExprFollowsType | contract-macro/src/lib.rs:409-418 | the argument is borrowed `&mut` exactly when the parameter is declared `&mut T`, `&` exactly when it is declared `&T`, and passed by value exactly when it is declared by value |
| Events.TopicFromExpr | contract-macro/src/extract.rs:24-44 | a topic exists exactly for a string literal (its value) or a path (its segments joined by `::`) |
| Events.TypeFromExpr | contract-macro/src/extract.rs:48-72 | the event type is the path of a struct literal, of a called path (`Type::new(..)`) or of a path, and `()` for anything else |
| Events.EmitEvent | contract-macro/src/lib.rs:160-193 | a call records an event exactly when it calls `abi::emit` with at least two arguments whose first names a topic; the topic and type come from those two arguments |
| Events.EmitVisitor.constructor | contract-macro/src/lib.rs:153-158 | a new visitor has recorded nothing |
| Events.EmitVisitor.VisitExpr | contract-macro/src/lib.rs:160-193 | visiting an expression appends exactly the events of the `emit` calls in it, outer call first, then its arguments left to right |
| Events.EmitVisitor.VisitCall | contract-macro/src/lib.rs:161-193 | `visit_expr_call` appends the call's own event when it is an `emit` call, then the events of the called expression and of the arguments in order |
| Events.EmitVisitor.VisitAll | contract-macro/src/lib.rs:160-193 | visiting sub-expressions appends their events in order |
| Events.EmitVisitor.VisitImpl | contract-macro/src/lib.rs:160-193 | visiting an impl block appends the events of every method body, in item order |
| Events.FeedVisitor.constructor | contract-macro/src/lib.rs:201-208 | a new visitor has recorded nothing |
| Events.FeedVisitor.VisitExpr | contract-macro/src/lib.rs:210-237 | visiting an expression appends exactly the argument of each `abi::feed` call in it |
| Events.FeedVisitor.VisitCall | contract-macro/src/lib.rs:210-236 | `visit_expr_call` appends the first argument of a `feed` call with at least one argument, then the feed arguments of the called expression and of the arguments in order |
| Events.FeedVisitor.VisitAll | contract-macro/src/lib.rs:210-237 | visiting sub-expressions appends their feed arguments in order |
| Events.GetFeedExprs | contract-macro/src/lib.rs:241-246 | the feed arguments of a method are those of its body, in order |
| Events.DedupFromFacts | contract-macro/src/extract.rs:309-322 | filtering with a `seen` set keeps no topic already seen, no topic twice, and every other topic |
| Events.DedupFromFirstAt | contract-macro/src/extract.rs:309-322 | every kept event is the first event of its topic |
| Events.DedupFromSnoc | contract-macro/src/extract.rs:309-322 | one more event is kept exactly when its topic is new, and the earlier output is unchanged |
| Events.DedupByTopicSpec | contract-macro/src/extract.rs:309-322 | de-duplication keeps one event per distinct topic, loses no topic, and each kept event is the first of its topic |
| Events.DedupDistinct | contract-macro/src/lib.rs:490-495 | de-duplicating events whose topics are already distinct changes nothing |
| Events.DedupLoop | contract-macro/src/lib.rs:490-495 | the `seen`-set loop computes the de-duplication by topic |
| Events.EmitCalls | contract-macro/src/extract.rs:309-322 | `emit_calls` returns the block's `emit` events de-duplicated by topic |
| Validate.RulesAll | contract-macro/src/validate.rs:19-103 | a signature satisfies every rule exactly when it satisfies each of the six rules |
| Validate.FirstBroken | contract-macro/src/validate.rs:19-103 | no rule is reported exactly when all hold; a reported rule is broken and every rule checked before it holds |
| Validate.PublicMethod | contract-macro/src/validate.rs:19-103 | a public method is accepted exactly when it breaks no rule; otherwise the message names the method and the first rule it breaks |
| Validate.TraitMethod | contract-macro/src/validate.rs:289-379 | a trait method is accepted exactly when it breaks no rule (a default implementation may lack `self`); otherwise the message names `Trait::method` and the first rule it breaks |
| Validate.PublicMethodAccepts | contract-macro/src/validate.rs:19-103 | a public method is accepted exactly when it is exportable; a trait method also when it is a default associated function that is otherwise exportable |
| Validate.ImplBlockMethods | contract-macro/src/validate.rs:110-120 | a block passes exactly when every validated method passes |
| Validate.ImplBlockMethodsFirstError | contract-macro/src/validate.rs:110-120 | a failing block reports the error of its first failing method |
| Validate.FindInItems | contract-macro/src/validate.rs:136-146 | a found method carries the name looked for |
| Validate.FindFn | contract-macro/src/validate.rs:136-146 | a method found across blocks carries the name looked for |
| Validate.FirstNamed | contract-macro/src/validate.rs:136-146 | the result is the first method with that name, and none exactly when no method has it |
| Validate.FirstNamedAppend | contract-macro/src/validate.rs:136-146 | a search over two runs finds the first run's match if it has one, otherwise the second run's |
| Validate.FindInItemsFirst | contract-macro/src/validate.rs:136-146 | the search within a block finds the first method of that name among its methods |
| Validate.FindFnFirst | contract-macro/src/validate.rs:136-146 | the nested `find_map` finds the first method of that name over all blocks in order |
| Validate.NewCheck | contract-macro/src/validate.rs:130-201 | no error exactly when the first `new` exists and is a valid constructor; the missing-`new` error exactly when there is none |
| Validate.NewConstructor | contract-macro/src/validate.rs:130-201 | accepted exactly when the first `new` is `const`, takes no inputs and returns `Self` or the contract type |
| Validate.InitMethod | contract-macro/src/validate.rs:208-283 | accepted exactly when there is no `init`, or the first `init` takes `&mut self` and returns `()` |
| Validate.FirstFoundDecides | contract-macro/src/validate.rs:136-146 | once an earlier block has a `new`, later blocks do not affect the verdict |
| Extract.FirstIndexSpec | contract-macro/src/extract.rs:388-423 | the first-index search finds nothing exactly when no element qualifies, and otherwise the first one that does |
| Extract.ParamOf | contract-macro/src/extract.rs:233-269 | a parameter descriptor gives back the declared type, a reference re-wrapped around its pointee |
| Extract.TypedInputs | contract-macro/src/extract.rs:233-269 | only typed inputs are kept, with the receiver dropped |
| Extract.ParametersOfInputs | contract-macro/src/extract.rs:233-269 | one parameter per typed input, in order, with its pattern's name and its declared type |
| Extract.InputType | contract-macro/src/extract.rs:272-285 | `()` for no parameter, the parameter's type for one, otherwise the tuple of the parameter types in order |
| Extract.OutputType | contract-macro/src/extract.rs:291-304 | `()` with no return type; the reference flag is set exactly for a reference return, whose pointee is reported |
| Extract.Describe | contract-macro/src/extract.rs:170-227 | the descriptor carries the method's name and the given trait name |
| Extract.CheckFeeds | contract-macro/src/extract.rs:191-200 | reports a violation exactly when the method calls `abi::feed` but names no feed type |
| Extract.Names | contract-macro/src/extract.rs:143-158 | one name per descriptor, in order |
| Extract.CollectErrSticky | contract-macro/src/extract.rs:170-227 | once the loop over a prefix has failed, the whole loop fails with the same error |
| Extract.CollectStep | contract-macro/src/extract.rs:170-227 | one loop step skips an item that is not picked, fails on a picked method with an error, and appends the descriptor of a picked method without one |
| Extract.CollectFails | contract-macro/src/extract.rs:170-227 | the loop fails exactly when some picked method has an error, and then reports the error of the first such method |
| Extract.CollectDescribes | contract-macro/src/extract.rs:170-227 | a successful loop yields exactly one descriptor per picked method, in item order |
| Extract.SelectedMembers | contract-macro/src/extract.rs:170-227 | the picked methods are exactly the function items that the selection accepts |
| Extract.CheckPublicMethod | contract-macro/src/extract.rs:191-200 | the check on one exported method reports the missing-feed-type error exactly when it applies |
| Extract.PublicMethods | contract-macro/src/extract.rs:170-227 | the loop over a block's items computes the `public_methods` result |
| Extract.PublicMethodsExports | contract-macro/src/extract.rs:170-227 | a successful extraction yields one descriptor per `pub` method other than `new`, in order; it fails exactly when one of them calls `feed` without a feed type |
| Extract.PublicMethodsNames | contract-macro/src/extract.rs:177-186 | `new` is never exported, a `pub fn init` is, and inherent methods carry no trait name |
| Extract.FirstIndexPrefix | contract-macro/src/extract.rs:388-423 | a match found in a prefix is the first match of the whole sequence |
| Extract.CheckTraitMethod | contract-macro/src/extract.rs:88-118 | the checks on one listed trait method (validation, then the feed check) give the modelled error |
| Extract.TraitFunctions | contract-macro/src/extract.rs:79-142 | the loop over the impl's items computes the listed methods' descriptors, or the first error |
| Extract.FirstMissing | contract-macro/src/extract.rs:143-158 | the loop finds the first listed name that no descriptor has |
| Extract.TraitMethods | contract-macro/src/extract.rs:79-161 | `trait_methods` is the descriptors of the listed methods followed by the check that every listed name was found |
| Extract.TraitMethodsExports | contract-macro/src/extract.rs:79-161 | on success, one descriptor per listed method in item order; it carries the trait name exactly when the method has an empty (default) body; every listed name is exported |
| Extract.TraitMethodsMissing | contract-macro/src/extract.rs:143-158 | a listed name that no method of the impl has makes the extraction fail |
| Extract.IdentNames | contract-macro/src/extract.rs:366-371 | a name is listed exactly when some token of the group is that identifier; a group of identifiers alone gives their names one for one, in order |
| Extract.IdentNamesAppend | contract-macro/src/extract.rs:366-371 | the names keep the tokens' order: a concatenation's names are the first part's followed by the second's |
| Extract.ExposeListSpec | contract-macro/src/extract.rs:328-379 | the expose list comes from the first attribute that carries one; none exactly when no attribute does |
| Extract.ExposeList | contract-macro/src/extract.rs:328-379 | the loop that returns at the first matching attribute computes that list |
| Extract.WithoutContractAttrs | contract-macro/src/extract.rs:522-584 | the moved handler function keeps its name and body, and only its non-`contract` attributes |
| Extract.FilterNonContract | contract-macro/src/extract.rs:522-584 | the kept attributes are attributes of the input, none of them `contract` |
| Extract.CustomDataDriverHandlers | contract-macro/src/extract.rs:522-584 | the nested loop over functions and their attributes collects the handlers in order |
| Extract.HandlerItemsAreCustom | contract-macro/src/extract.rs:590-616 | every function that registers a handler is recognised as a custom handler, so removing those functions from the module loses no handler |
| Extract.Imports | contract-macro/src/extract.rs:388-423 | the loop computes the import list or the glob or relative-import error, and reports the first offending item |
| Extract.ImportsErrors | contract-macro/src/extract.rs:388-423 | imports succeed exactly when no item is a glob or relative `use`; any glob gives the glob error |
| Extract.ContractStruct | contract-macro/src/extract.rs:429-462 | the contract is the one `pub` struct; no such struct and more than one are distinct errors |
| Extract.PubStructsMembers | contract-macro/src/extract.rs:429-462 | the collected names are exactly the `pub` structs' names |
| Extract.ImplBlocks | contract-macro/src/extract.rs:467-482 | every collected block is an inherent impl of the contract type, and every inherent impl of the contract type is collected |
| Extract.ImplBlocksMembers | contract-macro/src/extract.rs:464-482 | a block is collected exactly when some item is that block as an inherent impl of the contract type |
| Extract.ImplBlocksAppend | contract-macro/src/extract.rs:467-482 | the blocks are collected in item order: those of a module's first part come before those of the rest |
| Extract.TraitImpls | contract-macro/src/extract.rs:488-514 | every collected trait impl is for the contract type, its name is the trait path joined by `::`, and its expose list is the block's; every exposing trait impl of the contract type is collected |
| Extract.TraitImplsMembers | contract-macro/src/extract.rs:484-514 | a trait impl is collected exactly when some item is a trait impl of the contract type with an expose list |
| Extract.TraitImplsAppend | contract-macro/src/extract.rs:488-514 | the trait impls are collected in item order |
| Extract.ContractDataOf | contract-macro/src/extract.rs:621-655 | on success, the imports, the unique `pub` struct, at least one inherent block, validated methods, a valid `new` and a valid or absent `init` |
| Resolve.BuildImportMapSpec | contract-macro/src/resolve.rs:22-24 | the map's keys are the imported names, and a name imported twice maps to the path of its last import |
| Resolve.ImportPairs | contract-macro/src/resolve.rs:22-24 | one (name, path) pair per import, in order |
| Resolve.ResolveType | contract-macro/src/resolve.rs:37-52 | `()` resolves to `()`; any other type resolves to the token text of the type with every imported head replaced by its import's path (a 1-tuple keeps its comma, see "Left out") |
| Resolve.ResolveIsQualifiedRender | contract-macro/src/resolve.rs:55-73 | resolving a type renders the type with every imported head segment replaced by its full path, and nothing else changed |
| Resolve.ResolvePathIsQualifiedRender | contract-macro/src/resolve.rs:76-107 | the same holds for a path type |
| Resolve.FormatSegmentIsRender | contract-macro/src/resolve.rs:110-114 | a segment renders with its generic arguments resolved |
| Resolve.FormatArgsIsRender | contract-macro/src/resolve.rs:117-144 | generic arguments render with each type argument resolved |
| Resolve.QualifyUnmapped | contract-macro/src/resolve.rs:88-100 | qualifying a type that names no import leaves it unchanged |
| Resolve.ResolveUnmapped | contract-macro/src/resolve.rs:37-73 | a type that names no import resolves to its own text |
| Resolve.ResolveImportedName | contract-macro/src/resolve.rs:88-96 | an imported name resolves to the path of its last import, followed by its resolved generic arguments |
| Resolve.ResolveMultiSegment | contract-macro/src/resolve.rs:97-100 | a multi-segment path with an imported head becomes the import's path followed by the remaining segments |
| Resolve.OneTupleLosesComma | contract-macro/src/resolve.rs:58-62 | as written, the 1-tuple `(u64,)` resolves to `(u64)`; the corrected resolution keeps the comma |
| Resolve.ResolvePathStringSpec | contract-macro/src/resolve.rs:149-166 | a topic path whose head is not imported is kept; an imported head is replaced by its path and the rest kept verbatim |
| Resolve.BuildTypeMap | contract-macro/src/resolve.rs:170-201 | the insertion loops compute the type map |
| Resolve.TypeMapKeys | contract-macro/src/resolve.rs:170-201 | the type map has a key for each function's input and output text and each event's type text and topic, and no other key |
| Schema.FindFunction | src/schema.rs:62-64 | no position exactly when no function has the name; otherwise the first one that does |
| Schema.FindEvent | src/schema.rs:67-69 | no position exactly when no event has the topic; otherwise the first one that does |
| Schema.GetFunction | src/schema.rs:62-64 | `get_function` returns the first function entry with the name, and none exactly when there is none |
| Schema.GetEvent | src/schema.rs:67-69 | `get_event` returns the first event entry with the topic, and none exactly when there is none |
| Generate.GenerateSchema | contract-macro/src/generate.rs:16-91 | the schema carries the contract name and one entry per import, function and event, in input order: import `i` has import `i`'s name and path, function entry `i` function `i`'s name, event entry `i` event `i`'s topic |
| Generate.SchemaFunctionLookup | contract-macro/src/generate.rs:24-89 | looking a name up in the generated schema finds the first function of that name, with its doc (or empty) and its type texts; a name no function has is not found |
| Generate.SchemaEventLookup | contract-macro/src/generate.rs:24-89 | looking a topic up finds the first event with that topic and its type text; an unknown topic is not found |
| Generate.StateInitializerValid | contract-macro/src/generate.rs:99-105 | once the `new` checks pass, the `STATE` static has the contract type and its initializer is a valid `const fn new()` |
| Generate.CalleeOf | contract-macro/src/generate.rs:148-189 | the four call forms are chosen by the trait name and the receiver; `STATE` is borrowed mutably exactly for `&mut self` |
| Generate.ExternWrappers | contract-macro/src/generate.rs:114-208 | one wrapper per function, in order: wrapper `i` is named after function `i`, decodes its input through the closure pattern of `ClosureParamOf`, whose type is the function's input type, calls it with the callee form of `CalleeOf` and the arguments of `CallArgs`, and appends `.clone()` exactly when the function returns a reference |
| Generate.WrappersAsWrittenAgree | contract-macro/src/generate.rs:148-172 | where every trait name is a single identifier, the wrappers as written are the corrected ones |
| Generate.TraitPathWrapperFails | contract-macro/src/generate.rs:152 | as written, a default method of a trait named by a path (`ownable::Ownable`) cannot be wrapped; the corrected wrapper calls it through the path |
| Generate.WrappersCoverSchema | contract-macro/src/generate.rs:114-197 | wrapper `i` is named as schema function `i`, and the schema knows a name exactly when some wrapper exports it |
| Generate.CallArgsInOrder | contract-macro/src/generate.rs:122-144 | for every arity the call passes each parameter in declaration order, as `generate_arg_expr` writes it |
| Generate.ClosureDecodesInput | contract-macro/src/generate.rs:122-144 | the closure's declared type is the descriptor's input type for every arity |
| Generate.StripContractAttributes | contract-macro/src/generate.rs:213-242 | the method computes the stripped block |
| Generate.KeepNonEmptyMembers | contract-macro/src/generate.rs:232-239 | `retain` keeps exactly the items that pass, in order |
| Generate.FilterNonContractKeeps | contract-macro/src/generate.rs:213-242 | every non-`contract` attribute is kept, and no `contract` one |
| Generate.StripFacts | contract-macro/src/generate.rs:213-242 | no `contract` attribute is left on the block or its methods and every other one stays; an inherent block keeps every item; a trait impl keeps exactly its non-empty methods and other items |
| DataDriver.Dispatch | contract-macro/src/data_driver.rs:56-106 | a `match` on a name finds no arm exactly when no pattern matches |
| DataDriver.DispatchFirst | contract-macro/src/data_driver.rs:56-106 | the first matching arm decides |
| DataDriver.DispatchAppend | contract-macro/src/data_driver.rs:56-106 | arms after a match are never reached; arms that match nothing are skipped |
| DataDriver.Call | contract-macro/src/data_driver.rs:62-106 | a driver method fails exactly when no arm matches, with `Unsupported("<prefix><name>")` |
| DataDriver.GetResolvedType | contract-macro/src/data_driver.rs:122-132 | a type whose text is not in the map is kept; otherwise the mapped text is used when it parses as a type |
| DataDriver.TypeMapCoversTypes | contract-macro/src/data_driver.rs:122-132 | every function and event type text, and every topic, is a key of the type map |
| DataDriver.GenerateArms | contract-macro/src/data_driver.rs:135-261 | a table is one arm per function, then a loop adding one arm per handler of the table's role |
| DataDriver.HandlerArmsMembers | contract-macro/src/data_driver.rs:160-169 | the handler arms are exactly those of the handlers with the table's role |
| DataDriver.HandlerDispatch | contract-macro/src/data_driver.rs:160-169 | among handler arms, the first handler of the role for the name decides, and none matches exactly when there is no such handler |
| DataDriver.TableCallFunction | contract-macro/src/data_driver.rs:135-261 | a function's name gets that function's conversion (custom error first; for outputs `()` before `u64` before the generic one) |
| DataDriver.TableCallHandler | contract-macro/src/data_driver.rs:160-169 | a name that belongs to no function calls the first handler of the table's role registered for it |
| DataDriver.TableCallUnknown | contract-macro/src/data_driver.rs:62-106 | a name with neither a function nor a handler gets the table's unknown-name error |
| DataDriver.CustomFunctionShadowsHandler | contract-macro/src/data_driver.rs:146-151 | a custom function's name gets the custom-handler error even when a handler for it is registered |
| DataDriver.FilterMapMembers | contract-macro/src/data_driver.rs:264-293 | at most one arm per event, and exactly the present ones |
| DataDriver.FilterMapTotal | contract-macro/src/data_driver.rs:264-293 | when every event yields an arm, the arms follow the events one to one |
| DataDriver.EventArm | contract-macro/src/data_driver.rs:264-293 | an event arm decodes with the resolved data type; it is dropped exactly when the resolved topic parses as a variable-like path; a constant path matches that path, anything else the literal |
| DataDriver.EventArmsMembers | contract-macro/src/data_driver.rs:264-293 | at most one arm per event, each the arm of some event |
| DataDriver.CountChangedParses | contract-macro/src/data_driver.rs:272-279 | the literal topic `"count_changed"` parses as a one-segment path |
| DataDriver.VariableLikeTopicDropped | contract-macro/src/data_driver.rs:272-279 | a topic that resolves to a variable-like path gets no arm, so `decode_event` rejects it |
| DataDriver.LiteralTopicDropped | contract-macro/src/data_driver.rs:264-293 | as written, an event emitted under the literal topic `"count_changed"` cannot be decoded |
| DataDriver.EventArmCorrected | contract-macro/src/data_driver.rs:264-293 | a literal topic always gets a literal arm; path topics are handled as before |
| DataDriver.LiteralTopicsDecode | contract-macro/src/data_driver.rs:264-293 | with the corrected arms, every literal topic decodes with the type of its first event, and any other name is rejected |
| ContractMacro.Gather | contract-macro/src/lib.rs:473-488 | extracting over the blocks succeeds exactly when every block's extraction does; a failure is the first failing block's error |
| ContractMacro.GatherSticky | contract-macro/src/lib.rs:473-488 | once a block fails, the macro returns that block's error |
| ContractMacro.ExpandSpec | contract-macro/src/lib.rs:444-459 | a module without content gives the content error, a rejected module gives the `contract_data` error, and a success carries the validated contract name |
| ContractMacro.ExpandFrom | contract-macro/src/lib.rs:469-555 | after `contract_data` succeeds, a successful expansion carries that contract's name |
| ContractMacro.CollectInherent | contract-macro/src/lib.rs:473-479 | the loop over the inherent blocks computes their functions, or the first error, and their `emit_calls` events |
| ContractMacro.CollectExposed | contract-macro/src/lib.rs:482-488 | the loop over the exposed trait impls computes their functions, or the first error, and their events |
| ContractMacro.Rewrite | contract-macro/src/lib.rs:517-531 | the loop computes the rewritten module items |
| ContractMacro.Generators | contract-macro/src/lib.rs:497-510 | the generators compute the schema, static, wrappers, type map and data-driver tables from the collected lists |
| ContractMacro.Contract | contract-macro/src/lib.rs:444-555 | the macro computes the expansion specified by `ExpandSpec` |
| ContractMacro.TopicsAppend | contract-macro/src/lib.rs:469-488 | the topics of two event lists together are the union of their topics |
| ContractMacro.BlockEventsTopics | contract-macro/src/lib.rs:469-488 | the per-block de-duplication loses no topic: the topics of the collected events are the union of the topics the blocks emit |
| ContractMacro.MacroEventsTopics | contract-macro/src/lib.rs:469-495 | after the global de-duplication the events have distinct topics, and their topics are exactly those emitted by the inherent blocks and the exposed trait impls |
| Common.UnionOfMembers | contract-macro/src/lib.rs:469-488 | a topic is in the union over the blocks exactly when some block emits it |
| ContractMacro.ExpansionEvents | contract-macro/src/lib.rs:469-495 | for whatever `contract_data` returns, the expansion's events have distinct topics, and their topics are exactly those that an inherent block or an exposed trait impl emits |
| ContractMacro.ExpansionAgrees | contract-macro/src/lib.rs:497-510 | for whatever `contract_data` returns: one wrapper per function, named as the schema's entry at the same position; the schema knows a name exactly when a wrapper exports it; the type map is keyed by the functions' and events' texts; `STATE` has the contract type |
| ContractMacro.RewriteItemFacts | contract-macro/src/lib.rs:517-531 | one item is dropped exactly when it is a custom handler, and what is kept holds no handler and no `contract` attribute on an impl block for the contract |
| ContractMacro.RewriteFacts | contract-macro/src/lib.rs:517-531 | the rewritten module holds no custom handler, keeps its length exactly when it had none, and its impl blocks for the contract carry no `contract` attribute |
| Hex.HexDigit | cli/src/commands/call.rs:54-64 | a nibble becomes a decimal digit or a lower-case `a`-`f` |
| Hex.DigitValue | tests/types/src/lib.rs:690-696 | a hexadecimal digit of either case has a value below 16 |
| Hex.DigitValueOfDigit | cli/src/commands/call.rs:54-64 | reading a written digit gives the nibble back |
| Hex.HexOf | cli/src/commands/call.rs:54-64 | two digits per byte, each a decimal digit or `a`-`f` |
| Hex.HexOfAt | cli/src/commands/call.rs:54-64 | byte `i` is written at positions `2i` (high nibble) and `2i+1` (low nibble) |
| Hex.ParseHex | tests/types/src/lib.rs:690-696 | parsed hex text has two digits per byte |
| Hex.ParseHexOf | tests/types/src/lib.rs:639-697 | parsing the written digits gives the bytes back |
| Hex.ToHexPrefixed | cli/src/commands/call.rs:54-64 | the loop writes `0x` followed by the digits of every byte |
| Hex.HexPrefixedFacts | cli/src/commands/call.rs:54-64 | the text is `2 + 2n` characters long, starts with `0x`, holds byte `i` at positions `2+2i` and `3+2i`, and reads back as the bytes; no bytes print as `0x` |
| DataDriverWasm.AlignUpLeast | cli/src/data_driver_wasm.rs:199-201 | `align_up(v, a)` is the least multiple of `a` that is at least `v` |
| DataDriverWasm.EnsureFacts | cli/src/data_driver_wasm.rs:144-154 | on success there are enough pages, the old bytes are unchanged and the new ones are zero; it grows by exactly the shortfall, and changes nothing when the memory is already large enough |
| DataDriverWasm.WriteFacts | cli/src/data_driver_wasm.rs:156-168 | a write fails exactly when it would pass the end; otherwise the range holds the data and every other byte is unchanged |
| DataDriverWasm.ReadPrefixedSpec | cli/src/data_driver_wasm.rs:170-195 | a successful read has the little-endian length found at the offset |
| DataDriverWasm.ReadPrefixedOfLayout | cli/src/data_driver_wasm.rs:170-195 | a length-prefixed payload reads back as exactly that payload, whatever follows it |
| DataDriverWasm.ApplyWrites | cli/src/data_driver_wasm.rs:91-101 | the export's stores keep the length of the memory they are applied to; growth is applied before them by `ExportGrowth` |
| DataDriverWasm.CallFacts | cli/src/data_driver_wasm.rs:91-101 | a missing export changes nothing; a call that runs grows the memory by the pages the module asked for when they fit under the maximum, each stored byte holds its value, other old bytes are kept and other new bytes are zero |
| DataDriverWasm.OutputInGrownMemory | cli/src/data_driver_wasm.rs:170-195 | the output is read from the memory as the export leaves it: a length prefix past the old size is read from the grown memory, where without the growth it gives `OutputExceedsMemory` |
| DataDriverWasm.EncodeLayout | cli/src/data_driver_wasm.rs:71-74 | the name, the JSON and the output buffer do not overlap, each keeps a 16-byte gap, the later two are 8-byte aligned, and the output holds at least 4096 bytes and twice the JSON |
| DataDriverWasm.EncodeWritesInBounds | cli/src/data_driver_wasm.rs:76-79 | once the memory has grown, the two input writes never fail for bounds |
| DataDriverWasm.EncodeInputsWritten | cli/src/data_driver_wasm.rs:76-79 | when the encoding export runs, the name and the JSON are in memory at their offsets |
| DataDriverWasm.SchemaNeedsFivePages | cli/src/data_driver_wasm.rs:42-45 | `get_schema_json` needs five pages of memory before it calls the export |
| DataDriverWasm.FailureMessage | cli/src/data_driver_wasm.rs:103-110 | a failing call reports `<export> failed with code <code>: <detail>`, with `unknown error` when no last error can be read |
| DataDriverWasm.DataDriverWasm.constructor | cli/src/data_driver_wasm.rs:19-39 | an instantiated module starts with its initial memory and page count |
| DataDriverWasm.DataDriverWasm.Grow | cli/src/data_driver_wasm.rs:149-150 | growing succeeds exactly within the maximum and appends zeroed pages; a failure changes nothing |
| DataDriverWasm.DataDriverWasm.EnsureMemoryCapacity | cli/src/data_driver_wasm.rs:144-154 | the memory becomes the one `EnsureSpec` describes, or nothing changes on a failed growth; it asks to grow only by the shortfall |
| DataDriverWasm.DataDriverWasm.WriteBytes | cli/src/data_driver_wasm.rs:156-168 | the write and its result follow `WriteSpec` |
| DataDriverWasm.DataDriverWasm.ReadPrefixedBytes | cli/src/data_driver_wasm.rs:170-195 | the read follows `ReadPrefixedSpec` on the current memory |
| DataDriverWasm.DataDriverWasm.CallExport | cli/src/data_driver_wasm.rs:91-101 | the new memory and page count follow CallSpec: the module's own growth, then its stores; its status is returned, or its trap is reported |
| DataDriverWasm.DataDriverWasm.ReadLastError | cli/src/data_driver_wasm.rs:121-142 | `read_last_error` gives the module's error text or none, and the memory as specified |
| DataDriverWasm.DataDriverWasm.Invoke | cli/src/data_driver_wasm.rs:91-112 | a call, a non-zero status reported with the last error, then the output read |
| DataDriverWasm.DataDriverWasm.GetSchemaJson | cli/src/data_driver_wasm.rs:41-65 | `get_schema_json` follows its specification, including the UTF-8 check |
| DataDriverWasm.DataDriverWasm.PrepareInputs | cli/src/data_driver_wasm.rs:71-79 | the layout, the growth and the two writes follow their specification |
| DataDriverWasm.DataDriverWasm.EncodeInput | cli/src/data_driver_wasm.rs:67-113 | `encode_input` follows its specification |
| Engine.ToPascalSegment | cli/src/template/engine.rs:104-115 | the segment keeps its length, with its first character upper-cased and the rest unchanged |
| Engine.NonEmptySegments | cli/src/template/engine.rs:64 | no kept segment is empty |
| Engine.PascalSegments | cli/src/template/engine.rs:65 | one capitalised segment per segment |
| Engine.PascalScan | cli/src/template/engine.rs:62-67 | the reference spelling is one character shorter per hyphen and has no hyphen |
| Engine.NonEmptySegmentsFlatten | cli/src/template/engine.rs:62-67 | dropping empty segments does not change the joined result |
| Engine.PascalScanSplit | cli/src/template/engine.rs:62-67 | the scan agrees with split, capitalise and join |
| Engine.PascalIsScan | cli/src/template/engine.rs:62-67 | the Pascal spelling equals the reference scan for every input |
| Engine.PascalShape | cli/src/template/engine.rs:62-67 | for an accepted name the Pascal spelling starts with an upper-case letter, has no hyphen, and is one character shorter per hyphen |
| Engine.ValidateContractName | cli/src/template/engine.rs:22-74 | accepted exactly when the name is valid; each error exactly when every earlier check passes and its own fails (empty, characters, start, trailing hyphen, double hyphen); the three spellings of an accepted name |
| Engine.ModuleRoundTrip | cli/src/template/engine.rs:61 | replacing `_` by `-` in the module spelling gives the name back |
| Engine.RenderTemplate | cli/src/template/engine.rs:76-87 | `Cargo.toml` and `lib.rs` get the common replacements, the test file gets the test replacements, and the other three files are copied verbatim |
| Engine.PlaceholderChars | cli/src/template/engine.rs:95-98 | no character of an accepted name begins or occurs in the two name placeholders |
| Engine.NamePlaceholdersGone | cli/src/template/engine.rs:95-98 | after the first two replacements with an accepted name, neither `YOUR_CONTRACT_NAME` nor `YOUR_MODULE_NAME` is left |
| BuildRunner.Label | cli/src/build_runner/mod.rs:27-32 | `contract` exactly for the contract build and `data-driver` exactly for the data-driver build |
| BuildRunner.Feature | cli/src/build_runner/mod.rs:52-56 | the `contract` feature exactly for the contract build |
| BuildRunner.CargoArgs | cli/src/build_runner/mod.rs:46-63 | thirteen arguments for the contract build and eleven otherwise, with the toolchain first, the feature after `--features` and the manifest path after `--manifest-path` |
| BuildRunner.TargetDir | cli/src/build_runner/mod.rs:65-68 | each build uses its own target directory |
| BuildRunner.EscapeChars | cli/src/build_runner/mod.rs:130-133 | the reference escaping is one character longer per backslash and per quote |
| BuildRunner.DoubleSubstIsEscape | cli/src/build_runner/mod.rs:130-133 | the two chained substitutions escape each character on its own |
| BuildRunner.TomlEscapeIsPerChar | cli/src/build_runner/mod.rs:130-133 | `toml_escape` is the per-character escaping, one character longer per backslash and per quote |
| BuildRunner.EscapeRoundTrip | cli/src/build_runner/mod.rs:123-133 | for a path without control characters, reading the escaped text as a TOML basic string (escapes resolved, raw control characters and quotes rejected) gives the path back |
| BuildRunner.EscapeKeepsControl | cli/src/build_runner/mod.rs:130-133 | a path holding a control character other than tab is escaped into text that TOML rejects |
| BuildRunner.TomlEscapeRoundTrip | cli/src/build_runner/mod.rs:123-133 | `toml_escape` followed by TOML's reading gives back a path without control characters, and fails on a path with one |
| BuildRunner.RustflagsParts | cli/src/build_runner/mod.rs:135-159 | the existing flags split on whitespace, then `--remap-path-prefix HOME=` when HOME is set and non-empty, then the stack size for the contract build |
| BuildRunner.ComposeRustflags | cli/src/build_runner/mod.rs:135-159 | the method joins those parts with single spaces |
| BuildRunner.AddedFlagsAreWords | cli/src/build_runner/mod.rs:146-156 | the flags the runner adds are single words when HOME has no whitespace |
| BuildRunner.RustflagsTokens | cli/src/build_runner/mod.rs:135-159 | splitting the composed RUSTFLAGS on whitespace gives back exactly the collected flags, in order |
| BridgeTypes.Pow256 | tests/types/src/lib.rs:218-220 | the exclusive bound 256^n of an `n`-byte unsigned integer, below which `BeValueOfBytes` round-trips a value; it is positive |
| BridgeTypes.BeBytes | tests/types/src/lib.rs:218-220 | `to_be_bytes` of an `n`-byte integer has `n` bytes |
| BridgeTypes.BeValueOfBytes | tests/types/src/lib.rs:218-240 | encoding a value that fits and decoding it gives the value back |
| BridgeTypes.WeiFits | tests/types/src/lib.rs:218 | a u64 amount in Wei always fits in a u128 |
| BridgeTypes.AmountBytesLayout | tests/types/src/lib.rs:217-222 | the packed amount is 32 bytes, the top half zero and the low half the amount in Wei |
| BridgeTypes.AmountRoundTrip | tests/types/src/lib.rs:217-242 | packing then unpacking gives every u64 amount back |
| BridgeTypes.PackAmount | tests/types/src/lib.rs:217-222 | the method builds the packed amount |
| BridgeTypes.EncodeDsAddress | tests/types/src/lib.rs:278-287 | the four appends build the key's frame: size, compressed key, raw size, raw key |
| BridgeTypes.DecodeDsAddress | tests/types/src/lib.rs:294-330 | fails exactly when the data is short or either size header is wrong; a decoded key is well formed and taken from its two places in the frame |
| BridgeTypes.DecodeEncoded | tests/types/src/lib.rs:278-330 | a framed key decodes back to itself, whatever follows the frame |
| BridgeTypes.NewWithdrawalRequest | tests/types/src/lib.rs:204-225 | the request keeps its id and sender, packs the amount in Wei, and puts the key's frame in front of the extra data |
| BridgeTypes.TryFromRequest | tests/types/src/lib.rs:228-245 | the conversion follows `PendingOf` |
| BridgeTypes.RequestRoundTrip | tests/types/src/lib.rs:204-245 | a request built by `new` converts back into a pending withdrawal to the same key, for the same amount, at height `u64::MAX` |
| BridgeTypes.SerializeEvm | tests/types/src/lib.rs:639-653 | an address is written as `0x` and 40 lower-case digits, 42 characters |
| BridgeTypes.StripHexPrefix | tests/types/src/lib.rs:677-681 | at most one `0x` or `0X` is stripped |
| BridgeTypes.Utf8Len | tests/types/src/lib.rs:683-688 | `s.len()` counts UTF-8 bytes: never fewer than the characters, and as many exactly when every character is ASCII |
| BridgeTypes.DeserializeEvmSpec | tests/types/src/lib.rs:672-698 | a parsed address has 20 bytes and is the hex parse of exactly 40 characters; the length error, with the byte count, exactly when the trimmed, unprefixed text is not 40 UTF-8 bytes |
| BridgeTypes.TwentyAcutesAreInvalidHex | tests/types/src/lib.rs:683-696 | twenty `é` are forty bytes, pass the length check and fail as hexadecimal |
| BridgeTypes.DigitsAndAcuteCountBytes | tests/types/src/lib.rs:683-688 | thirty-nine digits and an `é` get the length error with 41 bytes |
| BridgeTypes.ParseHexPairs | tests/types/src/lib.rs:690-696 | pairs that all parse give the bytes |
| BridgeTypes.ParseHexBadPair | tests/types/src/lib.rs:690-696 | one bad pair makes the whole parse fail |
| BridgeTypes.DeserializeEvm | tests/types/src/lib.rs:672-698 | the loop computes the specified result |
| BridgeTypes.TrimUntouched | tests/types/src/lib.rs:676 | a string whose ends are not whitespace is its own trim |
| BridgeTypes.EvmRoundTrip | tests/types/src/lib.rs:639-698 | deserializing a serialized address gives the address back |

## Left out

- The parsing of Rust source into syntax trees is replaced by the datatypes of `Syntax`.
  `syn::parse_str::<Type>` is the parameter `parseType`, and token spacing is abstracted by `Syntax.Render`.
- Syntax.ParsePath: accepts `::`-separated ASCII identifiers only. It does not reject keywords and does not accept generics or a leading `::`.
- Compile-error spans, `quote!` token output and the `cfg` attributes of the expansion are not modelled.
- The expansion is a datatype value.
- Operations that `#[contract]` does not reach are outside the model:
  - `has_empty_body` is a predicate;
  - `is_relative_path_keyword` is a predicate;
  - `has_feed_calls` is not defined in the files modelled; it is read as "the feed visitor finds at least one call".
- Extract.CustomDataDriverHandlers: an attribute `#[contract(encode_input)]` without `= "fn"` removes the function from the module but registers no handler. The model reproduces this and claims nothing about it.
- The conversions an arm performs are symbolic actions: `json_to_rkyv`, `rkyv_to_json` and `rkyv_to_json_u64`. Serialisation itself is not modelled.
- The value of a `&str` constant named by a topic path is a parameter (`constOf`).
- `decode_output` ignores `feed_type`, and so does the model. `init` is exported like any other `pub` method.
- The schema's JSON serialisation (`to_json`) is not modelled.
- `DataDriverWasm` does not model these wasmtime parts:
  - module loading, `validate_module`, and the `init` call at load;
  - the text of grow and trap errors;
  - the `i32` casts of offsets and lengths.
- An export is an `ExportCall` value: the pages its own `memory.grow` asks for, its memory writes, its status and whether it traps. The module grows its memory at most once per call, before its stores.
- UTF-8 decoding is a parameter (`decode`).
- Offsets are unbounded naturals, so `usize` and `u64` overflow is not modelled.
- DataDriverWasm.DataDriverWasm.Grow: records the requested growth in the ghost field `growRequests`. It models wasmtime's `grow` only by the page limit.
- `load` is the constructor taking the initial memory.
- DataDriverWasm.Message: `NotUtf8` is rendered without the `: {err}` suffix. The text of the UTF-8 decoding error is not modelled, because decoding is the parameter `decode`.
- Engine.NamePlaceholdersGone: absence is proved only after the first two replacements.
  - A Pascal name can rebuild a placeholder in the later steps.
  - For example, name `n` (Pascal `N`) turns the template text `YOUR_CONTRACT_YOUR_STRUCT_NAMEAME` back into `YOUR_CONTRACT_NAME`.
- Engine.RenderTemplate: the template kind's embedded files are a `TemplateFiles` parameter; `embedded.rs` is not part of this model.
- Engine: the messages of `CliError` are the `Reason` texts. Unicode case mapping is ASCII-only, as the source's checks are.
- BuildRunner.RustflagsTokens: proved only for a HOME without whitespace. cargo would split a HOME holding a space into two flags.
- BuildRunner.TomlEscape: `to_string_lossy` is not modelled. The path is already a string.
- BuildRunner.EscapeRoundTrip: holds only for paths without control characters. `toml_escape` passes a newline or other control character through unescaped, and TOML rejects it (`EscapeKeepsControl`).
- BuildRunner.TomlEscapeRoundTrip: the same restriction; TOML's `\u` escapes are not read, because `toml_escape` never writes them.
- BuildRunner: these are outside the model:
  - spawning cargo;
  - `toolchain::cargo_toolchain_arg`;
  - `local_forge_paths`;
  - `apply_local_forge_overrides`;
  - `ensure_file_exists`;
  - `wasm_path`.
- BuildRunner: the environment variables are `Option<string>` parameters.
- BridgeTypes.DecodeDsAddress: the check that the compressed key matches the one rebuilt from the raw bytes is not modelled. BLS point decoding is foreign, so both parts are taken from the data.
- `PublicKey::SIZE` is a parameter `size`.
- BridgeTypes.DeserializeEvmSpec: has the same two gaps as the method on the next line, which computes it.
- BridgeTypes.DeserializeEvm: two behaviours of the source are not modelled:
  - `u8::from_str_radix` accepts a leading `+` in a pair;
  - byte-index slicing panics when a pair boundary falls inside a multi-byte character.
  Both are read as a failed pair. Trimming uses Unicode `White_Space`, as `str::trim` does.
- BridgeTypes: the `Address`, `Deposit`, `Ownable` and event types outside the withdrawal path are not modelled. Neither are their rkyv and serde derivations.
- Resolve.ResolveType: computes the corrected resolution (see "Findings"), which keeps a 1-tuple's trailing comma: `(u64,)` resolves to `(u64,)`. resolve.rs:61 as written gives `(u64)`, which is `Resolve.ResolveSynAsWritten`. The two differ only on types that contain a 1-tuple.
- Resolve.BuildTypeMap: its values come from `ResolveType`, so a type containing a 1-tuple maps to the comma-keeping text, not to resolve.rs:170-201's `(T)`.
- ContractMacro.Generators: builds the expansion from the three corrected generators of "Findings". It differs from lib.rs:497-510 as written on three inputs:
  - a string-literal topic that parses as a lower-case identifier gets a `decode_event` arm (as written: none);
  - a type containing a 1-tuple keeps its comma in the type map (as written: `(T)`);
  - an exposed method of a trait named by a path gets a wrapper (as written: the macro aborts).
- ContractMacro.ExpandFrom: assembles the expansion from the same corrected generators as `Generators`, so it differs from lib.rs:469-555 on the same three inputs.
- ContractMacro.ExpandSpec: is `ExpandFrom` after `contract_data`, so it differs from lib.rs:444-555 on the same three inputs.
- ContractMacro.Contract: computes `ExpandSpec`, so it differs from the macro as written on the same three inputs.
- ContractMacro.ExpansionAgrees: is stated for the corrected wrappers. As written, a path-named trait with an exposed method aborts the macro (`Generate.TraitPathWrapperFails`), so no wrappers exist to agree.

## Findings

| source | as written | input that shows it | evidently intended | confidence | as-written member | corrected member |
|---|---|---|---|---|---|---|
| contract-macro/src/data_driver.rs:264-293 | a topic written as a string literal that parses as a lower-case identifier (e.g. `"count_changed"`) is treated as a variable and gets no `decode_event` arm | `abi::emit("count_changed", v)` in a method: `decode_event("count_changed", ..)` returns `Unsupported` | literal topics decode like any other event | not executed | DataDriver.LiteralTopicDropped | DataDriver.LiteralTopicsDecode |
| contract-macro/src/resolve.rs:58-62 | a tuple is rendered as its elements joined by `, ` inside parentheses, so the 1-tuple `(u64,)` becomes `(u64)`, the type `u64` | a function parameter of type `(u64,)` | the 1-tuple keeps its trailing comma | not executed | Resolve.OneTupleLosesComma | Resolve.ResolveIsQualifiedRender |
| contract-macro/src/generate.rs:152 | `format_ident!` is given the trait name, which is the whole trait path joined by `::`, so a trait named by a path cannot become an identifier | `#[contract(expose = [owner])] impl ownable::Ownable for C {}` with a default `owner(&self)` | the wrapper calls the method through the trait path | not executed | Generate.TraitPathWrapperFails | Generate.ExternWrappers |
