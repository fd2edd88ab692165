/** The `#[contract]` attribute macro: it validates the module, collects the
    exported functions and the emitted events of every inherent impl block
    and every exposed trait impl, de-duplicates the events by topic, and
    builds from them the schema, the `STATE` static, the extern wrappers,
    the type map, the data-driver tables and the module's rewritten items.
    Token output, spans and `cfg` attributes are not modelled. */
module ContractMacro {
  import opened Common
  import opened Syntax
  import opened Descriptors
  import Extract
  import Events
  import Generate
  import Resolve
  import DataDriver
  import Schema

  const NoContentMessage := "#[contract] requires a module with content"

  /** The generated data-driver module: its four match tables and the
      custom handler functions moved into it. */
  datatype DriverModule = DriverModule(
    encodeInput: seq<DataDriver.Arm>,
    decodeInput: seq<DataDriver.Arm>,
    decodeOutput: seq<DataDriver.Arm>,
    decodeEvent: seq<DataDriver.Arm>,
    handlerFns: seq<ItemFn>)

  /** Everything the macro emits, with the function and event lists it
      emits them from. */
  datatype Expansion = Expansion(
    contractName: string,
    functions: seq<FunctionInfo>,
    events: seq<EventInfo>,
    schema: Generate.SchemaConstant,
    state: Generate.StaticDecl,
    wrappers: seq<Generate.Wrapper>,
    typeMap: map<string, string>,
    driver: DriverModule,
    items: seq<Item>)

  // ---------------------------------------------------------------------
  // Collecting functions and events
  // ---------------------------------------------------------------------

  /** The functions extracted from each element in turn, concatenated, or
      the error of the first element whose extraction fails. */
  function Gather<T>(xs: seq<T>, extract: T -> Result<seq<FunctionInfo>, string>): (r: Result<seq<FunctionInfo>, string>)
    ensures r.Ok? <==> forall k :: 0 <= k < |xs| ==> extract(xs[k]).Ok?
    ensures r.Err? ==> exists k :: 0 <= k < |xs| && extract(xs[k]) == Err(r.error) &&
                                  forall j :: 0 <= j < k ==> extract(xs[j]).Ok?
    decreases |xs|
  {
    if xs == [] then Ok([])
    else
      var prev := Gather(xs[..|xs| - 1], extract);
      var last := extract(xs[|xs| - 1]);
      if prev.Err? then prev
      else if last.Err? then Err(last.error)
      else Ok(prev.value + last.value)
  }

  /** Once the extraction over a prefix has failed, the whole extraction
      fails with the same error. */
  lemma {:induction false} GatherSticky<T>(xs: seq<T>, extract: T -> Result<seq<FunctionInfo>, string>, k: nat)
    requires k <= |xs| && Gather(xs[..k], extract).Err?
    ensures Gather(xs, extract) == Gather(xs[..k], extract)
    decreases |xs| - k
  {
    if k < |xs| {
      assert xs[..k + 1][..k] == xs[..k];
      assert Gather(xs[..k + 1], extract) == Gather(xs[..k], extract);
      GatherSticky(xs, extract, k + 1);
    } else {
      assert xs[..k] == xs;
    }
  }

  function InherentFunctions(parseType: string -> Option<Ty>): ItemImpl -> Result<seq<FunctionInfo>, string> {
    (b: ItemImpl) => Extract.PublicMethodsSpec(b.items, parseType)
  }

  function ExposedFunctions(parseType: string -> Option<Ty>): TraitImplInfo -> Result<seq<FunctionInfo>, string> {
    (ti: TraitImplInfo) => Extract.TraitMethodsSpec(ti, parseType)
  }

  function TraitBlock(ti: TraitImplInfo): ItemImpl {
    ti.implBlock
  }

  /** The events of each block in turn, each block's list already
      de-duplicated by `emit_calls`. */
  function BlockEvents<T>(xs: seq<T>, block: T -> ItemImpl): seq<EventInfo>
    decreases |xs|
  {
    if xs == [] then []
    else BlockEvents(xs[..|xs| - 1], block) + Events.DedupByTopic(Events.EmitsOfImpl(block(xs[|xs| - 1])))
  }

  // ---------------------------------------------------------------------
  // The rewritten module items
  // ---------------------------------------------------------------------

  /** One item of the rewritten module: custom handlers leave, impl blocks
      for the contract type lose their `contract` attributes. */
  function RewriteItem(item: Item, name: string): seq<Item> {
    if Extract.IsCustomHandler(item) then []
    else if item.ImplBlock? && IsIdentPath(item.block.selfTy, name) then [ImplBlock(Generate.StripSpec(item.block))]
    else [item]
  }

  function RewriteItems(items: seq<Item>, name: string): seq<Item> {
    ConcatMapBack((it: Item) => RewriteItem(it, name), items)
  }

  // ---------------------------------------------------------------------
  // The macro
  // ---------------------------------------------------------------------

  function Self(b: ItemImpl): ItemImpl {
    b
  }

  /** The generators run on the collected functions and the de-duplicated
      events. */
  function Assemble(data: ContractData, items: seq<Item>, functions: seq<FunctionInfo>, events: seq<EventInfo>,
                    parseType: string -> Option<Ty>): Expansion {
    var typeMap := Resolve.TypeMapSpec(data.imports, functions, events);
    var driver := DriverModule(
      DataDriver.FunctionArms(functions, DataDriver.EncodeInputTable, typeMap, parseType) +
        DataDriver.HandlerArms(data.customHandlers, EncodeInput),
      DataDriver.FunctionArms(functions, DataDriver.DecodeInputTable, typeMap, parseType) +
        DataDriver.HandlerArms(data.customHandlers, DecodeInput),
      DataDriver.FunctionArms(functions, DataDriver.DecodeOutputTable, typeMap, parseType) +
        DataDriver.HandlerArms(data.customHandlers, DecodeOutput),
      DataDriver.EventArmsCorrected(events, typeMap, parseType),
      seq(|data.customHandlers|, i requires 0 <= i < |data.customHandlers| => data.customHandlers[i].func));
    Expansion(data.contractName, functions, events,
              Generate.GenerateSchema(data.contractName, data.imports, functions, events),
              Generate.StateStatic(data.contractName),
              Generate.ExternWrappers(functions, data.contractName),
              typeMap, driver, RewriteItems(items, data.contractName))
  }

  /** What `contract` expands a module to, or the first error it reports. */
  function ExpandSpec(content: Option<seq<Item>>, parseType: string -> Option<Ty>): (r: Result<Expansion, string>)
    ensures content.None? ==> r == Err(NoContentMessage)
    ensures content.Some? && Extract.ContractDataOf(content.value).Err? ==>
              r == Err(Extract.ContractDataOf(content.value).error)
    ensures r.Ok? ==> content.Some? && Extract.ContractDataOf(content.value).Ok? &&
                      r.value.contractName == Extract.ContractDataOf(content.value).value.contractName
  {
    if content.None? then Err(NoContentMessage)
    else
      var d := Extract.ContractDataOf(content.value);
      if d.Err? then Err(d.error) else ExpandFrom(d.value, content.value, parseType)
  }

  /** Everything `contract` does after `contract_data` succeeds: the two
      extraction loops, the events, then the generators. */
  function ExpandFrom(data: ContractData, items: seq<Item>, parseType: string -> Option<Ty>): (r: Result<Expansion, string>)
    ensures r.Ok? ==> r.value.contractName == data.contractName
  {
    var inherent := Gather(data.implBlocks, InherentFunctions(parseType));
    if inherent.Err? then Err(inherent.error)
    else
      var exposed := Gather(data.traitImpls, ExposedFunctions(parseType));
      if exposed.Err? then Err(exposed.error)
      else Ok(Assemble(data, items, inherent.value + exposed.value, MacroEvents(data.implBlocks, data.traitImpls), parseType))
  }

  /** The loop over the inherent impl blocks: `public_methods` and
      `emit_calls` on each, stopping at the first error. */
  method CollectInherent(blocks: seq<ItemImpl>, parseType: string -> Option<Ty>)
    returns (r: Result<seq<FunctionInfo>, string>, events: seq<EventInfo>)
    ensures r == Gather(blocks, InherentFunctions(parseType))
    ensures r.Ok? ==> events == BlockEvents(blocks, Self)
  {
    ghost var extract := InherentFunctions(parseType);
    var functions: seq<FunctionInfo> := [];
    events := [];
    var k := 0;
    while k < |blocks|
      invariant 0 <= k <= |blocks|
      invariant Gather(blocks[..k], extract) == Ok(functions)
      invariant BlockEvents(blocks[..k], Self) == events
    {
      assert blocks[..k + 1][..k] == blocks[..k];
      var ms := Extract.PublicMethods(blocks[k].items, parseType);
      if ms.Err? {
        assert Gather(blocks[..k + 1], extract) == Err(ms.error);
        GatherSticky(blocks, extract, k + 1);
        return Err(ms.error), events;
      }
      functions := functions + ms.value;
      var es := Events.EmitCalls(blocks[k]);
      events := events + es;
      k := k + 1;
    }
    assert blocks[..k] == blocks;
    r := Ok(functions);
  }

  /** The loop over the exposed trait impls: `trait_methods` and
      `emit_calls` on each, stopping at the first error. */
  method CollectExposed(traits: seq<TraitImplInfo>, parseType: string -> Option<Ty>)
    returns (r: Result<seq<FunctionInfo>, string>, events: seq<EventInfo>)
    ensures r == Gather(traits, ExposedFunctions(parseType))
    ensures r.Ok? ==> events == BlockEvents(traits, TraitBlock)
  {
    ghost var extract := ExposedFunctions(parseType);
    var functions: seq<FunctionInfo> := [];
    events := [];
    var k := 0;
    while k < |traits|
      invariant 0 <= k <= |traits|
      invariant Gather(traits[..k], extract) == Ok(functions)
      invariant BlockEvents(traits[..k], TraitBlock) == events
    {
      assert traits[..k + 1][..k] == traits[..k];
      var ms := Extract.TraitMethods(traits[k], parseType);
      if ms.Err? {
        assert Gather(traits[..k + 1], extract) == Err(ms.error);
        GatherSticky(traits, extract, k + 1);
        return Err(ms.error), events;
      }
      functions := functions + ms.value;
      var es := Events.EmitCalls(traits[k].implBlock);
      events := events + es;
      k := k + 1;
    }
    assert traits[..k] == traits;
    r := Ok(functions);
  }

  /** The loop rebuilding the module's items. */
  method Rewrite(items: seq<Item>, name: string) returns (newItems: seq<Item>)
    ensures newItems == RewriteItems(items, name)
  {
    newItems := [];
    var k := 0;
    while k < |items|
      invariant 0 <= k <= |items|
      invariant newItems == RewriteItems(items[..k], name)
    {
      assert items[..k + 1][..k] == items[..k];
      var item := items[k];
      if !Extract.IsCustomHandler(item) {
        if item.ImplBlock? && IsIdentPath(item.block.selfTy, name) {
          var stripped := Generate.StripContractAttributes(item.block);
          newItems := newItems + [ImplBlock(stripped)];
        } else {
          newItems := newItems + [item];
        }
      }
      k := k + 1;
    }
    assert items[..k] == items;
  }

  /** The generators, in the order `contract` calls them. */
  method Generators(data: ContractData, items: seq<Item>, functions: seq<FunctionInfo>, events: seq<EventInfo>,
                    parseType: string -> Option<Ty>) returns (x: Expansion)
    ensures x == Assemble(data, items, functions, events, parseType)
  {
    var schema := Generate.GenerateSchema(data.contractName, data.imports, functions, events);
    var state := Generate.StateStatic(data.contractName);
    var wrappers := Generate.ExternWrappers(functions, data.contractName);
    var typeMap := Resolve.BuildTypeMap(data.imports, functions, events);
    var encodeArms := DataDriver.GenerateArms(functions, data.customHandlers, DataDriver.EncodeInputTable, typeMap, parseType);
    var decodeArms := DataDriver.GenerateArms(functions, data.customHandlers, DataDriver.DecodeInputTable, typeMap, parseType);
    var outputArms := DataDriver.GenerateArms(functions, data.customHandlers, DataDriver.DecodeOutputTable, typeMap, parseType);
    var eventArms := DataDriver.EventArmsCorrected(events, typeMap, parseType);
    var handlerFns := seq(|data.customHandlers|, i requires 0 <= i < |data.customHandlers| => data.customHandlers[i].func);
    var newItems := Rewrite(items, data.contractName);
    x := Expansion(data.contractName, functions, events, schema, state, wrappers, typeMap,
                   DriverModule(encodeArms, decodeArms, outputArms, eventArms, handlerFns), newItems);
  }

  /** `contract`: the module-content check, `contract_data`, the two
      extraction loops, the global topic de-duplication, then the
      generators. */
  method Contract(content: Option<seq<Item>>, parseType: string -> Option<Ty>) returns (r: Result<Expansion, string>)
    ensures r == ExpandSpec(content, parseType)
  {
    if content.None? {
      return Err(NoContentMessage);
    }
    var d := Extract.ContractDataOf(content.value);
    if d.Err? {
      return Err(d.error);
    }
    var data := d.value;
    var inherent, blockEvents := CollectInherent(data.implBlocks, parseType);
    if inherent.Err? {
      return Err(inherent.error);
    }
    var exposed, traitEvents := CollectExposed(data.traitImpls, parseType);
    if exposed.Err? {
      return Err(exposed.error);
    }
    var events := Events.DedupLoop(blockEvents + traitEvents);
    var x := Generators(data, content.value, inherent.value + exposed.value, events, parseType);
    r := Ok(x);
  }

  // ---------------------------------------------------------------------
  // Properties of the expansion
  // ---------------------------------------------------------------------

  lemma TopicsAppend(a: seq<EventInfo>, b: seq<EventInfo>)
    ensures Events.Topics(a + b) == Events.Topics(a) + Events.Topics(b)
  {
    var c := a + b;
    forall x | x in Events.Topics(c) ensures x in Events.Topics(a) + Events.Topics(b) {
      var k :| 0 <= k < |c| && c[k].topic == x;
      if k < |a| { assert c[k] == a[k]; } else { assert c[k] == b[k - |a|]; }
    }
    forall x | x in Events.Topics(a) ensures x in Events.Topics(c) {
      var k :| 0 <= k < |a| && a[k].topic == x;
      assert c[k] == a[k];
    }
    forall x | x in Events.Topics(b) ensures x in Events.Topics(c) {
      var k :| 0 <= k < |b| && b[k].topic == x;
      assert c[|a| + k] == b[k];
    }
  }

  /** The topics that the `emit` calls of a block name. */
  function BlockTopics<T>(block: T -> ItemImpl): T -> set<string> {
    (x: T) => Events.Topics(Events.EmitsOfImpl(block(x)))
  }

  /** The per-block de-duplication loses no topic: the collected events
      carry exactly the topics the blocks emit. */
  lemma {:induction false} BlockEventsTopics<T>(xs: seq<T>, block: T -> ItemImpl)
    ensures Events.Topics(BlockEvents(xs, block)) == UnionOf(xs, BlockTopics(block))
    decreases |xs|
  {
    if xs != [] {
      var n := |xs| - 1;
      BlockEventsTopics(xs[..n], block);
      var last := Events.EmitsOfImpl(block(xs[n]));
      Events.DedupByTopicSpec(last);
      TopicsAppend(BlockEvents(xs[..n], block), Events.DedupByTopic(last));
    }
  }

  /** The events of `contract`: after each block's own de-duplication, the
      topics of all blocks de-duplicated once more. */
  function MacroEvents(blocks: seq<ItemImpl>, traits: seq<TraitImplInfo>): seq<EventInfo> {
    Events.DedupByTopic(BlockEvents(blocks, Self) + BlockEvents(traits, TraitBlock))
  }

  lemma MacroEventsTopics(blocks: seq<ItemImpl>, traits: seq<TraitImplInfo>)
    ensures var evs := MacroEvents(blocks, traits);
            (forall k, l :: 0 <= k < l < |evs| ==> evs[k].topic != evs[l].topic) &&
            Events.Topics(evs) == UnionOf(blocks, BlockTopics(Self)) + UnionOf(traits, BlockTopics(TraitBlock))
  {
    var a := BlockEvents(blocks, Self);
    var b := BlockEvents(traits, TraitBlock);
    Events.DedupByTopicSpec(a + b);
    TopicsAppend(a, b);
    BlockEventsTopics(blocks, Self);
    BlockEventsTopics(traits, TraitBlock);
  }

  /** The macro's event list names every topic that an `emit` call of an
      inherent block or of an exposed trait impl names, each exactly once;
      `UnionOfMembers` reads the unions as "some block emits it". */
  lemma ExpansionEvents(data: ContractData, items: seq<Item>, parseType: string -> Option<Ty>)
    requires ExpandFrom(data, items, parseType).Ok?
    ensures var x := ExpandFrom(data, items, parseType).value;
            (forall k, l :: 0 <= k < l < |x.events| ==> x.events[k].topic != x.events[l].topic) &&
            Events.Topics(x.events) == UnionOf(data.implBlocks, BlockTopics(Self)) + UnionOf(data.traitImpls, BlockTopics(TraitBlock))
  {
    MacroEventsTopics(data.implBlocks, data.traitImpls);
  }

  /** The outputs agree with each other: one wrapper per function, named as
      the schema's entry at the same position, the schema answering for a
      name exactly when a wrapper exports it, the type map keyed by the
      functions' and events' type texts, and the `STATE` static of the
      contract type. */
  lemma ExpansionAgrees(data: ContractData, items: seq<Item>, parseType: string -> Option<Ty>)
    requires ExpandFrom(data, items, parseType).Ok?
    ensures var x := ExpandFrom(data, items, parseType).value;
            |x.wrappers| == |x.functions| == |x.schema.functions| &&
            x.schema.name == x.contractName && x.state.ty == x.contractName &&
            (forall i :: 0 <= i < |x.functions| ==> x.wrappers[i].name == x.schema.functions[i].name) &&
            (forall n :: Schema.GetFunction(Generate.AsContractSchema(x.schema), n).Some? <==>
                         exists i :: 0 <= i < |x.functions| && x.wrappers[i].name == n) &&
            x.typeMap.Keys == Resolve.FunctionKeys(x.functions) + Resolve.EventKeys(x.events)
  {
    var x := ExpandFrom(data, items, parseType).value;
    Generate.WrappersCoverSchema(x.contractName, data.imports, x.functions, x.events);
    Resolve.TypeMapKeys(data.imports, x.functions, x.events);
  }

  /** What the rewriting leaves in the module: no custom handler, and no
      `contract` attribute on an impl block for the contract type. */
  predicate Rewritten(it: Item, name: string) {
    !Extract.IsCustomHandler(it) &&
    (it.ImplBlock? && IsIdentPath(it.block.selfTy, name) ==> forall a :: a in it.block.attrs ==> !AttrIs(a, "contract"))
  }

  lemma RewriteItemFacts(item: Item, name: string)
    ensures forall it :: it in RewriteItem(item, name) ==> Rewritten(it, name)
    ensures |RewriteItem(item, name)| == if Extract.IsCustomHandler(item) then 0 else 1
  {
    if !Extract.IsCustomHandler(item) && item.ImplBlock? && IsIdentPath(item.block.selfTy, name) {
      Generate.StripFacts(item.block);
    }
  }

  /** The rewritten module keeps no custom handler function, keeps its
      length exactly when it had none, and every impl block for the
      contract type in it is left without `contract` attributes. */
  lemma RewriteFacts(items: seq<Item>, name: string)
    ensures forall it :: it in RewriteItems(items, name) ==> !Extract.IsCustomHandler(it)
    ensures |RewriteItems(items, name)| <= |items|
    ensures |RewriteItems(items, name)| == |items| <==> forall k :: 0 <= k < |items| ==> !Extract.IsCustomHandler(items[k])
    ensures forall it :: it in RewriteItems(items, name) && it.ImplBlock? && IsIdentPath(it.block.selfTy, name) ==>
              forall a :: a in it.block.attrs ==> !AttrIs(a, "contract")
  {
    var f := (it: Item) => RewriteItem(it, name);
    forall x ensures (forall u :: u in f(x) ==> Rewritten(u, name)) && |f(x)| == if Extract.IsCustomHandler(x) then 0 else 1 {
      RewriteItemFacts(x, name);
    }
    ConcatMapBackAll(f, items, (u: Item) => Rewritten(u, name));
    ConcatMapBackLength(f, items, (x: Item) => Extract.IsCustomHandler(x));
  }
}
