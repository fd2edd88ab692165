/** Signature validation: the guard checks an exported method, the `new`
    constructor and the optional `init` method must pass.  Each check
    reports only the first rule a signature breaks, in a fixed order. */
module Validate {
  import opened Common
  import opened Syntax
  import opened Descriptors

  // ---------------------------------------------------------------------
  // Exported methods (inherent and trait)
  // ---------------------------------------------------------------------

  /** The rules an exported method must satisfy, in the order they are
      checked. */
  datatype MethodRule =
    | NoGenerics
    | NotAsync
    | NoImplTraitParam
    | NoImplTraitReturn
    | HasReceiver
    | BorrowsSelf

  function Rank(q: MethodRule): nat {
    match q
    case NoGenerics => 0
    case NotAsync => 1
    case NoImplTraitParam => 2
    case NoImplTraitReturn => 3
    case HasReceiver => 4
    case BorrowsSelf => 5
  }

  predicate HasImplTraitParam(sig: Signature) {
    exists k :: 0 <= k < |sig.inputs| && sig.inputs[k].Typed? && sig.inputs[k].ty.TImplTrait?
  }

  predicate HasImplTraitReturn(sig: Signature) {
    sig.output.Returns? && sig.output.ty.TImplTrait?
  }

  /** The first input is a `self` receiver. */
  predicate HasSelf(sig: Signature) {
    sig.inputs != [] && sig.inputs[0].SelfArg?
  }

  /** Whether `sig` satisfies rule `q`; `assocAllowed` lets a method without
      a receiver through (trait methods taking the default implementation). */
  predicate RuleHolds(q: MethodRule, sig: Signature, assocAllowed: bool) {
    match q
    case NoGenerics => sig.generics == 0
    case NotAsync => !sig.asyncness
    case NoImplTraitParam => !HasImplTraitParam(sig)
    case NoImplTraitReturn => !HasImplTraitReturn(sig)
    case HasReceiver => assocAllowed || HasSelf(sig)
    case BorrowsSelf => HasSelf(sig) ==> sig.inputs[0].reference
  }

  lemma RulesAll(sig: Signature, assocAllowed: bool)
    ensures (forall q :: RuleHolds(q, sig, assocAllowed)) <==>
            RuleHolds(NoGenerics, sig, assocAllowed) && RuleHolds(NotAsync, sig, assocAllowed) &&
            RuleHolds(NoImplTraitParam, sig, assocAllowed) && RuleHolds(NoImplTraitReturn, sig, assocAllowed) &&
            RuleHolds(HasReceiver, sig, assocAllowed) && RuleHolds(BorrowsSelf, sig, assocAllowed)
  {
  }

  /** The first rule `sig` breaks, checked in the order of `Rank`. */
  function FirstBroken(sig: Signature, assocAllowed: bool): (r: Option<MethodRule>)
    ensures r.None? <==> forall q :: RuleHolds(q, sig, assocAllowed)
    ensures r.Some? ==> !RuleHolds(r.value, sig, assocAllowed) &&
                        forall q :: Rank(q) < Rank(r.value) ==> RuleHolds(q, sig, assocAllowed)
  {
    RulesAll(sig, assocAllowed);
    if sig.generics != 0 then Some(NoGenerics)
    else if sig.asyncness then Some(NotAsync)
    else if HasImplTraitParam(sig) then Some(NoImplTraitParam)
    else if HasImplTraitReturn(sig) then Some(NoImplTraitReturn)
    else if !HasSelf(sig) then (if assocAllowed then None else Some(HasReceiver))
    else if !sig.inputs[0].reference then Some(BorrowsSelf)
    else None
  }

  /** The reason given for a broken rule, after the method's description. */
  function RuleReason(q: MethodRule, assocHint: bool): string {
    match q
    case NoGenerics => "cannot have generic or const parameters; extern \"C\" wrappers require concrete types"
    case NotAsync => "cannot be async; WASM contracts do not support async execution"
    case NoImplTraitParam => "cannot use `impl Trait` in parameters; extern \"C\" wrappers require concrete types"
    case NoImplTraitReturn => "cannot use `impl Trait` as return type; extern \"C\" wrappers require concrete types"
    case HasReceiver =>
      if assocHint
      then "must have a `self` receiver; for associated functions, use an empty body `{}` to expose the default impl"
      else "must have a `self` receiver; associated functions cannot be exposed as contract methods"
    case BorrowsSelf => "cannot consume `self`; use `&self` or `&mut self` instead"
  }

  /** `public_method`: Ok exactly when the method breaks no rule; otherwise
      the error for the first rule it breaks. */
  function PublicMethod(m: ImplItemFn): (r: Result<(), string>)
    ensures r.Ok? <==> forall q :: RuleHolds(q, m.sig, false)
    ensures r.Err? ==> r.error == "public method `" + m.sig.ident + "` " +
                                  RuleReason(FirstBroken(m.sig, false).value, false)
  {
    var b := FirstBroken(m.sig, false);
    if b.None? then Ok(()) else Err("public method `" + m.sig.ident + "` " + RuleReason(b.value, false))
  }

  /** `trait_method`: as `PublicMethod`, except that a method without a
      receiver is accepted when it takes the trait's default implementation;
      a by-value `self` is rejected either way. */
  function TraitMethod(m: ImplItemFn, traitName: string, isDefaultImpl: bool): (r: Result<(), string>)
    ensures r.Ok? <==> forall q :: RuleHolds(q, m.sig, isDefaultImpl)
    ensures r.Err? ==> r.error == "trait method `" + traitName + "::" + m.sig.ident + "` " +
                                  RuleReason(FirstBroken(m.sig, isDefaultImpl).value, true)
  {
    var b := FirstBroken(m.sig, isDefaultImpl);
    if b.None? then Ok(())
    else Err("trait method `" + traitName + "::" + m.sig.ident + "` " + RuleReason(b.value, true))
  }

  /** The signatures an exported method may have, stated directly. */
  predicate Exportable(sig: Signature) {
    sig.generics == 0 && !sig.asyncness && !HasImplTraitParam(sig) && !HasImplTraitReturn(sig) &&
    HasSelf(sig) && sig.inputs[0].reference
  }

  /** `public_method` accepts exactly the exportable signatures, and a trait
      method differs only in accepting receiver-less default
      implementations. */
  lemma PublicMethodAccepts(m: ImplItemFn, traitName: string, isDefaultImpl: bool)
    ensures PublicMethod(m).Ok? <==> Exportable(m.sig)
    ensures TraitMethod(m, traitName, isDefaultImpl).Ok? <==>
            (Exportable(m.sig) || (isDefaultImpl && !HasSelf(m.sig) && m.sig.generics == 0 && !m.sig.asyncness &&
                                   !HasImplTraitParam(m.sig) && !HasImplTraitReturn(m.sig)))
  {
    if !Exportable(m.sig) {
      var b := FirstBroken(m.sig, false);
      assert b.Some?;
    }
    if TraitMethod(m, traitName, isDefaultImpl).Ok? {
      assert RuleHolds(HasReceiver, m.sig, isDefaultImpl);
      assert RuleHolds(BorrowsSelf, m.sig, isDefaultImpl);
    }
  }

  /** The inherent methods `impl_block_methods` validates: `pub` methods
      other than `new`. */
  predicate ValidatedMethod(item: ImplItem) {
    item.FnItem? && item.fn.isPub && item.fn.sig.ident != "new"
  }

  /** The item passes `impl_block_methods`' scrutiny. */
  predicate Passes(item: ImplItem) {
    !ValidatedMethod(item) || PublicMethod(item.fn).Ok?
  }

  /** `impl_block_methods`: the first error among the validated methods, in
      item order. */
  function ImplBlockMethods(items: seq<ImplItem>): (r: Result<(), string>)
    ensures r.Ok? <==> forall k :: 0 <= k < |items| ==> Passes(items[k])
    decreases |items|
  {
    if items == [] then Ok(())
    else if !Passes(items[0]) then PublicMethod(items[0].fn)
    else
      var r := ImplBlockMethods(items[1..]);
      assert forall k :: 1 <= k < |items| ==> items[k] == items[1..][k - 1];
      r
  }

  /** A failure is the error of the first validated method that fails. */
  lemma {:induction false} ImplBlockMethodsFirstError(items: seq<ImplItem>)
    requires ImplBlockMethods(items).Err?
    ensures exists k :: 0 <= k < |items| && !Passes(items[k]) &&
                        ImplBlockMethods(items) == PublicMethod(items[k].fn) &&
                        forall j :: 0 <= j < k ==> Passes(items[j])
    decreases |items|
  {
    var tail := items[1..];
    if Passes(items[0]) {
      assert ImplBlockMethods(items) == ImplBlockMethods(tail);
      ImplBlockMethodsFirstError(tail);
      var k :| 0 <= k < |tail| && !Passes(tail[k]) && ImplBlockMethods(tail) == PublicMethod(tail[k].fn) &&
               forall j :: 0 <= j < k ==> Passes(tail[j]);
      assert items[k + 1] == tail[k];
      forall j | 0 <= j < k + 1 ensures Passes(items[j]) {
        if j > 0 { assert items[j] == tail[j - 1]; }
      }
    } else {
      assert ImplBlockMethods(items) == PublicMethod(items[0].fn);
    }
  }

  // ---------------------------------------------------------------------
  // `new` and `init`
  // ---------------------------------------------------------------------

  /** The first method named `name` among `items`. */
  function FindInItems(items: seq<ImplItem>, name: string): (r: Option<ImplItemFn>)
    ensures r.Some? ==> r.value.sig.ident == name
    decreases |items|
  {
    if items == [] then None
    else if items[0].FnItem? && items[0].fn.sig.ident == name then Some(items[0].fn)
    else FindInItems(items[1..], name)
  }

  /** `find_map` over the impl blocks, then over each block's items. */
  function FindFn(blocks: seq<ItemImpl>, name: string): (r: Option<ImplItemFn>)
    ensures r.Some? ==> r.value.sig.ident == name
    decreases |blocks|
  {
    if blocks == [] then None
    else
      var here := FindInItems(blocks[0].items, name);
      if here.Some? then here else FindFn(blocks[1..], name)
  }

  /** The methods among `items`, in item order. */
  function MethodsOf(items: seq<ImplItem>): seq<ImplItemFn>
    decreases |items|
  {
    if items == [] then []
    else (if items[0].FnItem? then [items[0].fn] else []) + MethodsOf(items[1..])
  }

  /** Every method of the blocks, block by block in item order. */
  function MethodsOfBlocks(blocks: seq<ItemImpl>): seq<ImplItemFn>
    decreases |blocks|
  {
    if blocks == [] then [] else MethodsOf(blocks[0].items) + MethodsOfBlocks(blocks[1..])
  }

  /** The first of `fns` named `name`. */
  function FirstNamed(fns: seq<ImplItemFn>, name: string): (r: Option<ImplItemFn>)
    ensures r.None? <==> forall k :: 0 <= k < |fns| ==> fns[k].sig.ident != name
    ensures r.Some? ==> exists k :: 0 <= k < |fns| && fns[k] == r.value && r.value.sig.ident == name &&
                          forall j :: 0 <= j < k ==> fns[j].sig.ident != name
    decreases |fns|
  {
    if fns == [] then None
    else if fns[0].sig.ident == name then Some(fns[0])
    else
      var r := FirstNamed(fns[1..], name);
      assert forall k :: 1 <= k < |fns| ==> fns[k] == fns[1..][k - 1];
      if r.Some? then
        var k :| 0 <= k < |fns[1..]| && fns[1..][k] == r.value && r.value.sig.ident == name &&
                 forall j :: 0 <= j < k ==> fns[1..][j].sig.ident != name;
        assert fns[k + 1] == r.value;
        r
      else r
  }

  lemma {:induction false} FirstNamedAppend(a: seq<ImplItemFn>, b: seq<ImplItemFn>, name: string)
    ensures FirstNamed(a + b, name) == if FirstNamed(a, name).Some? then FirstNamed(a, name) else FirstNamed(b, name)
    decreases |a|
  {
    if a == [] {
      assert a + b == b;
    } else {
      assert (a + b)[1..] == a[1..] + b;
      FirstNamedAppend(a[1..], b, name);
    }
  }

  lemma {:induction false} FindInItemsFirst(items: seq<ImplItem>, name: string)
    ensures FindInItems(items, name) == FirstNamed(MethodsOf(items), name)
    decreases |items|
  {
    if items != [] {
      FindInItemsFirst(items[1..], name);
      var head := if items[0].FnItem? then [items[0].fn] else [];
      FirstNamedAppend(head, MethodsOf(items[1..]), name);
    }
  }

  /** Nested `find_map` finds the first method of that name over all blocks
      taken in order, so only that one is validated. */
  lemma {:induction false} FindFnFirst(blocks: seq<ItemImpl>, name: string)
    ensures FindFn(blocks, name) == FirstNamed(MethodsOfBlocks(blocks), name)
    decreases |blocks|
  {
    if blocks != [] {
      FindInItemsFirst(blocks[0].items, name);
      FindFnFirst(blocks[1..], name);
      FirstNamedAppend(MethodsOf(blocks[0].items), MethodsOfBlocks(blocks[1..]), name);
    }
  }

  /** `-> Self` or `-> <contract name>`. */
  predicate ReturnsSelf(sig: Signature, contractName: string) {
    sig.output.Returns? && (IsIdentPath(sig.output.ty, "Self") || IsIdentPath(sig.output.ty, contractName))
  }

  /** A `const fn new()` without inputs that returns the contract type. */
  predicate ValidNew(m: ImplItemFn, contractName: string) {
    m.sig.constness && m.sig.inputs == [] && ReturnsSelf(m.sig, contractName)
  }

  /** The four ways `new_constructor` rejects a contract, in checking order. */
  datatype NewError = NoNew | NotConst | HasInputs | WrongReturn

  /** `new_constructor`'s checks on the first `new`: that it exists, is
      `const`, takes no inputs and returns `Self` or the contract type. */
  function NewCheck(contractName: string, blocks: seq<ItemImpl>): (r: Option<NewError>)
    ensures r.None? <==> FindFn(blocks, "new").Some? && ValidNew(FindFn(blocks, "new").value, contractName)
    ensures r == Some(NoNew) <==> FindFn(blocks, "new").None?
  {
    var m := FindFn(blocks, "new");
    if m.None? then Some(NoNew)
    else if !m.value.sig.constness then Some(NotConst)
    else if m.value.sig.inputs != [] then Some(HasInputs)
    else if !ReturnsSelf(m.value.sig, contractName) then Some(WrongReturn)
    else None
  }

  function NewMessage(contractName: string, e: NewError): string {
    match e
    case NoNew =>
      "#[contract] requires `" + contractName + "` to have a `const fn new() -> Self` method to initialize the static STATE variable"
    case NotConst =>
      "`" + contractName + "::new` must be a `const fn` to initialize the static STATE variable; add `const` to the function signature"
    case HasInputs =>
      "`" + contractName + "::new` must have no parameters; use `const fn new() -> Self` to create a default state"
    case WrongReturn =>
      "`" + contractName + "::new` must return `Self` or `" + contractName + "`"
  }

  /** `new_constructor`: Ok exactly when the first `new` is valid, else the
      message for the first check it fails. */
  function NewConstructor(contractName: string, blocks: seq<ItemImpl>): (r: Result<(), string>)
    ensures r.Ok? <==> FindFn(blocks, "new").Some? && ValidNew(FindFn(blocks, "new").value, contractName)
  {
    var e := NewCheck(contractName, blocks);
    if e.None? then Ok(()) else Err(NewMessage(contractName, e.value))
  }

  /** `-> ()` or no return type. */
  predicate ReturnsUnit(sig: Signature) {
    sig.output.DefaultReturn? || (sig.output.ty.TTuple? && sig.output.ty.elems == [])
  }

  /** `init_method`: no `init` is fine; otherwise the first `init` must take
      `&mut self` and return `()`. */
  function InitMethod(contractName: string, blocks: seq<ItemImpl>): (r: Result<(), string>)
    ensures r.Ok? <==> var m := FindFn(blocks, "init");
                       m.None? || (HasSelf(m.value.sig) && m.value.sig.inputs[0].reference &&
                                   m.value.sig.inputs[0].mutable && ReturnsUnit(m.value.sig))
  {
    var m := FindFn(blocks, "init");
    if m.None? then Ok(())
    else if !HasSelf(m.value.sig) then
      Err("`" + contractName + "::init` must take `&mut self`; initialization requires access to contract state")
    else if !m.value.sig.inputs[0].reference || !m.value.sig.inputs[0].mutable then
      Err("`" + contractName + "::init` must take `&mut self`; initialization needs to modify contract state")
    else if !ReturnsUnit(m.value.sig) then
      Err("`" + contractName + "::init` must return `()`; use `panic!` or `assert!` for initialization errors")
    else Ok(())
  }

  /** A `new` or `init` in a later block is never looked at once an earlier
      block has one. */
  lemma FirstFoundDecides(b: ItemImpl, rest: seq<ItemImpl>, contractName: string)
    requires FindInItems(b.items, "new").Some?
    ensures NewConstructor(contractName, [b] + rest) == NewConstructor(contractName, [b])
  {
    assert ([b] + rest)[1..] == rest;
    assert [b][1..] == [];
  }
}
