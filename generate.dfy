/** What the macro generates besides the data driver: the schema constant,
    the static contract state, one extern wrapper per exported function,
    and the impl blocks with their `contract` attributes stripped. */
module Generate {
  import opened Common
  import opened Syntax
  import opened Descriptors
  import opened Schema
  import opened Validate
  import opened Extract

  // ---------------------------------------------------------------------
  // schema
  // ---------------------------------------------------------------------

  datatype ImportEntry = ImportEntry(name: string, path: string)

  /** The `CONTRACT_SCHEMA` constant: the contract's name, then its imports,
      functions and events. */
  datatype SchemaConstant = SchemaConstant(
    name: string,
    imports: seq<ImportEntry>,
    functions: seq<FunctionSchema>,
    events: seq<EventSchema>)

  /** A function's schema entry: its doc comment or the empty string, and
      the unresolved token text of its input and output types. */
  function FunctionEntry(f: FunctionInfo): FunctionSchema {
    FunctionSchema(f.name, if f.doc.Some? then f.doc.value else "", Render(f.inputType), Render(f.outputType), f.isCustom)
  }

  /** An event's schema entry: the topic as written and the unresolved
      token text of its data type. */
  function EventEntry(e: EventInfo): EventSchema {
    EventSchema(e.topic, Render(e.dataType))
  }

  /** `schema`: one entry per import, function and event, in order. */
  function GenerateSchema(contractName: string, imports: seq<ImportInfo>, functions: seq<FunctionInfo>,
                          events: seq<EventInfo>): (r: SchemaConstant)
    ensures r.name == contractName
    ensures |r.imports| == |imports| && |r.functions| == |functions| && |r.events| == |events|
    ensures forall i :: 0 <= i < |imports| ==> r.imports[i].name == imports[i].name && r.imports[i].path == imports[i].path
    ensures forall i :: 0 <= i < |functions| ==> r.functions[i].name == functions[i].name
    ensures forall i :: 0 <= i < |events| ==> r.events[i].topic == events[i].topic
  {
    SchemaConstant(contractName,
                   seq(|imports|, i requires 0 <= i < |imports| => ImportEntry(imports[i].name, imports[i].path)),
                   seq(|functions|, i requires 0 <= i < |functions| => FunctionEntry(functions[i])),
                   seq(|events|, i requires 0 <= i < |events| => EventEntry(events[i])))
  }

  /** The generated constant as the schema type the lookups work on. */
  function AsContractSchema(c: SchemaConstant): ContractSchema {
    ContractSchema(c.name, c.functions, c.events)
  }

  /** Looking a name up in the generated schema finds the first function
      of that name, with its doc comment (or "") and the token text of its
      input and output types; a name no function has is not found. */
  lemma SchemaFunctionLookup(contractName: string, imports: seq<ImportInfo>, functions: seq<FunctionInfo>,
                             events: seq<EventInfo>, name: string)
    ensures GetFunction(AsContractSchema(GenerateSchema(contractName, imports, functions, events)), name).None? <==>
            forall i :: 0 <= i < |functions| ==> functions[i].name != name
    ensures forall i :: 0 <= i < |functions| && functions[i].name == name &&
                        (forall j :: 0 <= j < i ==> functions[j].name != name) ==>
              GetFunction(AsContractSchema(GenerateSchema(contractName, imports, functions, events)), name) ==
              Some(FunctionSchema(name, if functions[i].doc.Some? then functions[i].doc.value else "",
                                  Render(functions[i].inputType), Render(functions[i].outputType),
                                  functions[i].isCustom))
  {
    var s := AsContractSchema(GenerateSchema(contractName, imports, functions, events));
    assert forall i :: 0 <= i < |functions| ==> s.functions[i] == FunctionEntry(functions[i]);
    var r := GetFunction(s, name);
    forall i | 0 <= i < |functions| && functions[i].name == name && (forall j :: 0 <= j < i ==> functions[j].name != name)
      ensures r == Some(FunctionEntry(functions[i]))
    {
      var k :| FirstFunctionNamed(s.functions, name, k) && s.functions[k] == r.value;
    }
  }

  /** Looking a topic up in the generated schema finds the first event with
      that topic as written, with the token text of its data type. */
  lemma SchemaEventLookup(contractName: string, imports: seq<ImportInfo>, functions: seq<FunctionInfo>,
                          events: seq<EventInfo>, topic: string)
    ensures GetEvent(AsContractSchema(GenerateSchema(contractName, imports, functions, events)), topic).None? <==>
            forall i :: 0 <= i < |events| ==> events[i].topic != topic
    ensures forall i :: 0 <= i < |events| && events[i].topic == topic &&
                        (forall j :: 0 <= j < i ==> events[j].topic != topic) ==>
              GetEvent(AsContractSchema(GenerateSchema(contractName, imports, functions, events)), topic) ==
              Some(EventSchema(topic, Render(events[i].dataType)))
  {
    var s := AsContractSchema(GenerateSchema(contractName, imports, functions, events));
    assert forall i :: 0 <= i < |events| ==> s.events[i] == EventEntry(events[i]);
    var r := GetEvent(s, topic);
    forall i | 0 <= i < |events| && events[i].topic == topic && (forall j :: 0 <= j < i ==> events[j].topic != topic)
      ensures r == Some(EventEntry(events[i]))
    {
      var k :| FirstEventWithTopic(s.events, topic, k) && s.events[k] == r.value;
    }
  }

  // ---------------------------------------------------------------------
  // state_static
  // ---------------------------------------------------------------------

  /** `static mut STATE: <ty> = <ty>::<ctor>();` */
  datatype StaticDecl = StaticDecl(name: string, ty: string, ctor: string)

  /** `state_static`. */
  function StateStatic(contractName: string): StaticDecl {
    StaticDecl("STATE", contractName, "new")
  }

  /** Once `new_constructor` has accepted the contract, the initializer of
      `STATE` calls a `const fn new()` that takes no inputs and returns the
      contract type, so the static is well-formed. */
  lemma StateInitializerValid(contractName: string, blocks: seq<ItemImpl>)
    requires NewConstructor(contractName, blocks).Ok?
    ensures StateStatic(contractName).ty == contractName
    ensures FindFn(blocks, StateStatic(contractName).ctor).Some?
    ensures ValidNew(FindFn(blocks, StateStatic(contractName).ctor).value, contractName)
  {
  }

  // ---------------------------------------------------------------------
  // extern_wrappers
  // ---------------------------------------------------------------------

  /** The closure's parameter pattern: `(): ()`, `name: Ty`, or
      `(n1, ..., nk): input_type`. */
  datatype ClosureParam =
    | UnitParam
    | SingleParam(name: string, ty: Ty)
    | TupleParam(names: seq<string>, ty: Ty)

  /** The type a closure pattern declares. */
  function ClosureType(p: ClosureParam): Ty {
    match p
    case UnitParam => Unit
    case SingleParam(_, ty) => ty
    case TupleParam(_, ty) => ty
  }

  datatype StateRef = SharedState | MutState

  /** How the wrapper calls the function: `Trait::f(&STATE, ..)` or
      `Trait::f(&mut STATE, ..)`, `<C as Trait>::f(..)`, `STATE.f(..)`, or
      `C::f(..)`. */
  datatype Callee =
    | TraitMethodCall(traitPath: string, state: StateRef)
    | TraitAssocCall(contract: string, traitPath: string)
    | StateMethodCall
    | AssocCall(contract: string)

  /** `#[no_mangle] unsafe extern "C" fn <name>(arg_len: u32) -> u32`,
      whose body is `wrap_call(arg_len, |<param>| <callee>(<args>)` and
      `.clone()` when `clone`. */
  datatype Wrapper = Wrapper(name: string, param: ClosureParam, callee: Callee, args: seq<string>, clone: bool)

  function ClosureParamOf(f: FunctionInfo): ClosureParam {
    if |f.params| == 0 then UnitParam
    else if |f.params| == 1 then SingleParam(f.params[0].name, f.params[0].ty)
    else TupleParam(seq(|f.params|, i requires 0 <= i < |f.params| => f.params[i].name), f.inputType)
  }

  /** The call arguments, by arity as the source builds them. */
  function CallArgs(f: FunctionInfo): seq<string> {
    if |f.params| == 0 then []
    else if |f.params| == 1 then [GenerateArgExpr(f.params[0])]
    else seq(|f.params|, i requires 0 <= i < |f.params| => GenerateArgExpr(f.params[i]))
  }

  /** The call form, chosen by the trait name and whether there is a
      receiver; `STATE` is borrowed mutably exactly for `&mut self`. */
  function CalleeOf(f: FunctionInfo, contractName: string): (c: Callee)
    ensures c.TraitMethodCall? <==> f.traitName.Some? && f.receiver != NoReceiver
    ensures c.TraitAssocCall? <==> f.traitName.Some? && f.receiver == NoReceiver
    ensures c.StateMethodCall? <==> f.traitName.None? && f.receiver != NoReceiver
    ensures c.AssocCall? <==> f.traitName.None? && f.receiver == NoReceiver
    ensures c.TraitMethodCall? ==> (c.state == MutState <==> f.receiver == RefMut)
  {
    match (f.traitName, f.receiver != NoReceiver)
    case (Some(t), true) => TraitMethodCall(t, if f.receiver == RefMut then MutState else SharedState)
    case (Some(t), false) => TraitAssocCall(contractName, t)
    case (None, true) => StateMethodCall
    case (None, false) => AssocCall(contractName)
  }

  /** The wrapper of one function, with the trait written as its path. */
  function WrapperOf(f: FunctionInfo, contractName: string): Wrapper {
    Wrapper(f.name, ClosureParamOf(f), CalleeOf(f, contractName), CallArgs(f), f.returnsRef)
  }

  /** `extern_wrappers`, with a trait given by a path accepted. */
  function ExternWrappers(functions: seq<FunctionInfo>, contractName: string): (ws: seq<Wrapper>)
    ensures |ws| == |functions|
    ensures forall i :: 0 <= i < |functions| ==>
              ws[i].name == functions[i].name && (ws[i].clone <==> functions[i].returnsRef) &&
              ws[i].callee == CalleeOf(functions[i], contractName) && ws[i].args == CallArgs(functions[i])
    ensures forall i :: 0 <= i < |functions| ==> ws[i].param == ClosureParamOf(functions[i])
    ensures forall i :: 0 <= i < |functions| && functions[i].inputType == InputType(functions[i].params) ==>
              ClosureType(ws[i].param) == functions[i].inputType
  {
    seq(|functions|, i requires 0 <= i < |functions| => WrapperOf(functions[i], contractName))
  }

  /** `extern_wrappers` as written: `format_ident!` on the trait name
      panics unless the name is a single identifier, so a trait named by a
      path (`ownable::Ownable`, as `trait_impls` joins it) aborts the macro
      for any default-implementation method it exposes. */
  function WrapperAsWritten(f: FunctionInfo, contractName: string): Result<Wrapper, string> {
    if f.traitName.Some? && !IsIdentifier(f.traitName.value) then
      Err("`" + f.traitName.value + "` is not a valid identifier")
    else Ok(WrapperOf(f, contractName))
  }

  function ExternWrappersAsWritten(functions: seq<FunctionInfo>, contractName: string): Result<seq<Wrapper>, string>
    decreases |functions|
  {
    if functions == [] then Ok([])
    else
      var w := WrapperAsWritten(functions[0], contractName);
      var rest := ExternWrappersAsWritten(functions[1..], contractName);
      if w.Err? then Err(w.error)
      else if rest.Err? then rest
      else Ok([w.value] + rest.value)
  }

  lemma ExternWrappersCons(functions: seq<FunctionInfo>, contractName: string)
    requires functions != []
    ensures ExternWrappers(functions, contractName) ==
            [WrapperOf(functions[0], contractName)] + ExternWrappers(functions[1..], contractName)
  {
    var ws := ExternWrappers(functions, contractName);
    var rest := ExternWrappers(functions[1..], contractName);
    assert forall i :: 0 <= i < |rest| ==> rest[i] == WrapperOf(functions[1..][i], contractName);
    assert forall i :: 1 <= i < |ws| ==> ws[i] == rest[i - 1];
  }

  /** Where every trait name is a single identifier, the wrappers as
      written are the corrected ones. */
  lemma {:induction false} WrappersAsWrittenAgree(functions: seq<FunctionInfo>, contractName: string)
    requires forall i :: 0 <= i < |functions| && functions[i].traitName.Some? ==> IsIdentifier(functions[i].traitName.value)
    ensures ExternWrappersAsWritten(functions, contractName) == Ok(ExternWrappers(functions, contractName))
    decreases |functions|
  {
    if functions != [] {
      WrappersAsWrittenAgree(functions[1..], contractName);
      ExternWrappersCons(functions, contractName);
    }
  }

  /** An exposed default method of `impl ownable::Ownable for C`: the
      wrapper generation as written fails, the corrected one calls
      `ownable::Ownable::owner(&STATE)`. */
  lemma TraitPathWrapperFails(f: FunctionInfo)
    requires f.traitName == Some("ownable::Ownable") && f.receiver == Ref
    ensures ExternWrappersAsWritten([f], "C").Err?
    ensures ExternWrappers([f], "C")[0].callee == TraitMethodCall("ownable::Ownable", SharedState)
  {
    assert ':' in "ownable::Ownable" && !IsIdentContinue("ownable::Ownable"[7]);
  }

  /** Every function gets exactly one wrapper, named after it and in order,
      so every function the schema lists has an exported entry point. */
  lemma WrappersCoverSchema(contractName: string, imports: seq<ImportInfo>, functions: seq<FunctionInfo>,
                            events: seq<EventInfo>)
    ensures forall i :: 0 <= i < |functions| ==>
              ExternWrappers(functions, contractName)[i].name ==
              GenerateSchema(contractName, imports, functions, events).functions[i].name
    ensures forall n :: GetFunction(AsContractSchema(GenerateSchema(contractName, imports, functions, events)), n).Some? <==>
              exists i :: 0 <= i < |functions| && ExternWrappers(functions, contractName)[i].name == n
  {
    forall n ensures GetFunction(AsContractSchema(GenerateSchema(contractName, imports, functions, events)), n).Some? <==>
                     exists i :: 0 <= i < |functions| && ExternWrappers(functions, contractName)[i].name == n
    {
      SchemaFunctionLookup(contractName, imports, functions, events, n);
      if exists i :: 0 <= i < |functions| && ExternWrappers(functions, contractName)[i].name == n {
        var i :| 0 <= i < |functions| && ExternWrappers(functions, contractName)[i].name == n;
        assert functions[i].name == n;
      }
      if GetFunction(AsContractSchema(GenerateSchema(contractName, imports, functions, events)), n).Some? {
        var i :| 0 <= i < |functions| && functions[i].name == n;
        assert ExternWrappers(functions, contractName)[i].name == n;
      }
    }
  }

  /** For every arity the call passes each parameter, in declaration
      order, as `generate_arg_expr` writes it. */
  lemma CallArgsInOrder(f: FunctionInfo)
    ensures |CallArgs(f)| == |f.params|
    ensures forall i :: 0 <= i < |f.params| ==> CallArgs(f)[i] == GenerateArgExpr(f.params[i])
  {
  }

  /** The closure decodes the function's input type: whatever the arity,
      the type its pattern declares is the descriptor's input type, and the
      pattern binds the parameters' names in order. */
  lemma ClosureDecodesInput(m: ImplItemFn, parseType: string -> Option<Ty>, traitName: Option<string>)
    ensures ClosureType(ClosureParamOf(Describe(m, parseType, traitName))) == Describe(m, parseType, traitName).inputType
  {
    var f := Describe(m, parseType, traitName);
    assert f.inputType == InputType(f.params);
  }

  // ---------------------------------------------------------------------
  // strip_contract_attributes
  // ---------------------------------------------------------------------

  /** A method with its `contract` attributes removed. */
  function StripItem(item: ImplItem): ImplItem {
    if item.FnItem? then FnItem(item.fn.(attrs := FilterNonContract(item.fn.attrs))) else item
  }

  /** What survives in a trait impl: everything but empty-body methods. */
  predicate KeptInTraitImpl(item: ImplItem) {
    !(item.FnItem? && item.fn.body == [])
  }

  function KeepNonEmpty(items: seq<ImplItem>): seq<ImplItem>
    decreases |items|
  {
    if items == [] then []
    else KeepNonEmpty(items[..|items| - 1]) + (if KeptInTraitImpl(items[|items| - 1]) then [items[|items| - 1]] else [])
  }

  /** The block `strip_contract_attributes` returns. */
  function StripSpec(block: ItemImpl): ItemImpl {
    var stripped := seq(|block.items|, i requires 0 <= i < |block.items| => StripItem(block.items[i]));
    block.(attrs := FilterNonContract(block.attrs),
           items := if block.traitPath.Some? then KeepNonEmpty(stripped) else stripped)
  }

  /** `strip_contract_attributes`: the attributes of the block, then of
      each method in place, then (for a trait impl) the `retain` pass. */
  method StripContractAttributes(block: ItemImpl) returns (r: ItemImpl)
    ensures r == StripSpec(block)
  {
    var isTraitImpl := block.traitPath.Some?;
    var attrs := FilterNonContract(block.attrs);
    var items := block.items;
    var k := 0;
    while k < |items|
      invariant 0 <= k <= |items| == |block.items|
      invariant forall i :: 0 <= i < k ==> items[i] == StripItem(block.items[i])
      invariant forall i :: k <= i < |items| ==> items[i] == block.items[i]
    {
      if items[k].FnItem? {
        var m := items[k].fn;
        items := items[k := FnItem(m.(attrs := FilterNonContract(m.attrs)))];
      }
      k := k + 1;
    }
    assert items == seq(|block.items|, i requires 0 <= i < |block.items| => StripItem(block.items[i]));
    if isTraitImpl {
      var kept: seq<ImplItem> := [];
      var j := 0;
      while j < |items|
        invariant 0 <= j <= |items|
        invariant kept == KeepNonEmpty(items[..j])
      {
        assert items[..j + 1][..j] == items[..j];
        if !(items[j].FnItem? && items[j].fn.body == []) {
          kept := kept + [items[j]];
        }
        j := j + 1;
      }
      assert items[..j] == items;
      items := kept;
    }
    r := block.(attrs := attrs, items := items);
  }

  /** `retain` keeps exactly the items that pass, in order. */
  lemma {:induction false} KeepNonEmptyMembers(items: seq<ImplItem>)
    ensures forall x :: x in KeepNonEmpty(items) <==> x in items && KeptInTraitImpl(x)
    decreases |items|
  {
    if items != [] {
      KeepNonEmptyMembers(items[..|items| - 1]);
      assert items == items[..|items| - 1] + [items[|items| - 1]];
    }
  }

  /** Every non-`contract` attribute is kept, and no `contract` one. */
  lemma {:induction false} FilterNonContractKeeps(attrs: seq<Attribute>)
    ensures forall a :: a in FilterNonContract(attrs) <==> a in attrs && !AttrIs(a, "contract")
    decreases |attrs|
  {
    if attrs != [] {
      FilterNonContractKeeps(attrs[1..]);
      assert attrs == [attrs[0]] + attrs[1..];
    }
  }

  /** After stripping, no `contract` attribute is left on the block or on
      any method and every other attribute is still there; an inherent
      block keeps all its items, and a trait impl keeps every item except
      its empty-body methods. */
  lemma StripFacts(block: ItemImpl)
    ensures forall a :: a in StripSpec(block).attrs <==> a in block.attrs && !AttrIs(a, "contract")
    ensures forall x :: x in StripSpec(block).items ==>
              (x.FnItem? ==> forall a :: a in x.fn.attrs ==> !AttrIs(a, "contract"))
    ensures block.traitPath.None? ==>
              |StripSpec(block).items| == |block.items| &&
              forall i :: 0 <= i < |block.items| ==> StripSpec(block).items[i] == StripItem(block.items[i])
    ensures block.traitPath.Some? ==>
              forall x :: x in StripSpec(block).items ==> KeptInTraitImpl(x)
    ensures block.traitPath.Some? ==>
              forall i :: 0 <= i < |block.items| && KeptInTraitImpl(block.items[i]) ==>
                StripItem(block.items[i]) in StripSpec(block).items
  {
    FilterNonContractKeeps(block.attrs);
    var stripped := seq(|block.items|, i requires 0 <= i < |block.items| => StripItem(block.items[i]));
    KeepNonEmptyMembers(stripped);
    forall x | x in stripped ensures x.FnItem? ==> forall a :: a in x.fn.attrs ==> !AttrIs(a, "contract") {
      var i :| 0 <= i < |stripped| && stripped[i] == x;
      if block.items[i].FnItem? {
        FilterNonContractKeeps(block.items[i].fn.attrs);
      }
    }
    forall i | 0 <= i < |block.items| && KeptInTraitImpl(block.items[i])
      ensures KeptInTraitImpl(stripped[i])
    {
    }
  }
}
