/** Descriptor extraction: the exported functions of the contract's inherent
    impl blocks and of its exposed trait impls, their parameters and input
    and output types, the expose lists, custom data-driver handlers, and
    the module-level checks (imports, the single pub struct, impl blocks). */
module Extract {
  import opened Common
  import opened Syntax
  import opened Descriptors
  import opened ImportParse
  import opened Events
  import opened Validate

  // ---------------------------------------------------------------------
  // First-match search, as the loops with a remembered "first" slot do it
  // ---------------------------------------------------------------------

  /** The first position of `s` satisfying `p`, computed as a loop over the
      prefix would: the slot is filled once and never overwritten. */
  function FirstIndex<T>(s: seq<T>, p: T -> bool): (r: Option<nat>)
    ensures r.Some? ==> r.value < |s|
    decreases |s|
  {
    if s == [] then None
    else
      var prev := FirstIndex(s[..|s| - 1], p);
      if prev.Some? then prev else if p(s[|s| - 1]) then Some(|s| - 1) else None
  }

  lemma {:induction false} FirstIndexSpec<T>(s: seq<T>, p: T -> bool)
    ensures FirstIndex(s, p).None? <==> forall k :: 0 <= k < |s| ==> !p(s[k])
    ensures FirstIndex(s, p).Some? ==>
              p(s[FirstIndex(s, p).value]) && forall k :: 0 <= k < FirstIndex(s, p).value ==> !p(s[k])
    decreases |s|
  {
    if s != [] {
      var init := s[..|s| - 1];
      FirstIndexSpec(init, p);
      assert forall k :: 0 <= k < |init| ==> init[k] == s[k];
    }
  }

  // ---------------------------------------------------------------------
  // Parameters, input and output types
  // ---------------------------------------------------------------------

  /** A parameter's name: the identifier of a plain pattern, `arg` for any
      other pattern. */
  function PatName(p: Pat): string {
    if p.PIdent? then p.name else "arg"
  }

  /** The descriptor of one typed input: the pointee of a reference type,
      flagged as a (mutable) reference. */
  function ParamOf(pat: Pat, ty: Ty): (p: ParameterInfo)
    ensures ArgType(p) == ty
  {
    if ty.TRef? then ParameterInfo(PatName(pat), ty.elem, true, ty.mutable)
    else ParameterInfo(PatName(pat), ty, false, false)
  }

  /** The typed inputs of a signature, receivers dropped. */
  function TypedInputs(inputs: seq<FnArg>): (r: seq<FnArg>)
    ensures forall k :: 0 <= k < |r| ==> r[k].Typed?
    decreases |inputs|
  {
    if inputs == [] then []
    else (if inputs[0].Typed? then [inputs[0]] else []) + TypedInputs(inputs[1..])
  }

  /** `parameters`: one descriptor per typed input, in order. */
  function Parameters(inputs: seq<FnArg>): seq<ParameterInfo>
    decreases |inputs|
  {
    if inputs == [] then []
    else (if inputs[0].Typed? then [ParamOf(inputs[0].pat, inputs[0].ty)] else []) + Parameters(inputs[1..])
  }

  /** The parameters are the typed inputs in order: each is named after its
      pattern, and borrowing it back as `GenerateArgExpr` does gives the
      declared type again. */
  lemma {:induction false} ParametersOfInputs(inputs: seq<FnArg>)
    ensures var ps := Parameters(inputs); var ts := TypedInputs(inputs);
      |ps| == |ts| &&
      forall k :: 0 <= k < |ps| ==> ps[k].name == PatName(ts[k].pat) && ArgType(ps[k]) == ts[k].ty
    decreases |inputs|
  {
    if inputs != [] {
      ParametersOfInputs(inputs[1..]);
    }
  }

  /** `input_type`: `()` for no parameters, the parameter's type for one,
      the tuple of the parameter types in order for more. */
  function InputType(params: seq<ParameterInfo>): (t: Ty)
    ensures |params| == 0 ==> t == Unit
    ensures |params| == 1 ==> t == params[0].ty
    ensures |params| >= 2 ==> t.TTuple? && |t.elems| == |params| &&
                              forall k :: 0 <= k < |params| ==> t.elems[k] == params[k].ty
  {
    if |params| == 0 then Unit
    else if |params| == 1 then params[0].ty
    else TTuple(seq(|params|, i requires 0 <= i < |params| => params[i].ty))
  }

  /** `output_type`: the returned type and whether it was a reference; a
      reference gives its pointee, no return type gives `()`. */
  function OutputType(ret: ReturnType): (r: (Ty, bool))
    ensures ret.DefaultReturn? ==> r == (Unit, false)
    ensures ret.Returns? ==> (r.1 <==> ret.ty.TRef?)
    ensures ret.Returns? ==> (if r.1 then TRef(ret.ty.mutable, r.0) else r.0) == ret.ty
  {
    match ret
    case DefaultReturn => (Unit, false)
    case Returns(ty) => if ty.TRef? then (ty.elem, true) else (ty, false)
  }

  // ---------------------------------------------------------------------
  // Function descriptors
  // ---------------------------------------------------------------------

  /** The descriptor of an exported method; `traitName` is set for methods
      that take a trait's default implementation. */
  function Describe(m: ImplItemFn, parseType: string -> Option<Ty>, traitName: Option<string>): (f: FunctionInfo)
    ensures f.name == m.sig.ident && f.traitName == traitName
  {
    var params := Parameters(m.sig.inputs);
    var (out, returnsRef) := OutputType(m.sig.output);
    FunctionInfo(m.sig.ident, ExtractDocComment(m.attrs), params, InputType(params), out,
                 HasCustomAttribute(m.attrs), returnsRef, ExtractReceiver(m), traitName,
                 ExtractFeedsAttribute(m.attrs, parseType))
  }

  /** The method calls `feed` but names no feed type. */
  predicate FeedViolation(m: ImplItemFn, parseType: string -> Option<Ty>) {
    HasFeedCalls(m) && ExtractFeedsAttribute(m.attrs, parseType).None?
  }

  /** The feed check both extraction loops run on a method: the feed type
      read from its attributes and the `feed` calls found in its body. */
  method CheckFeeds(m: ImplItemFn, parseType: string -> Option<Ty>) returns (violation: bool)
    ensures violation <==> FeedViolation(m, parseType)
  {
    var feedType := ExtractFeedsAttribute(m.attrs, parseType);
    var feeds := GetFeedExprs(m);
    violation := feeds != [] && feedType.None?;
  }

  function FeedMessage(name: string): string {
    "method `" + name + "` uses `abi::feed()` but is missing `#[contract(feeds = \"Type\")]` attribute; " +
    "add the attribute to specify the type being fed for data-driver decoding"
  }

  function Names(fs: seq<FunctionInfo>): (r: seq<string>)
    ensures |r| == |fs| && forall k :: 0 <= k < |fs| ==> r[k] == fs[k].name
  {
    seq(|fs|, i requires 0 <= i < |fs| => fs[i].name)
  }

  // ---------------------------------------------------------------------
  // The extraction loop shared by public_methods and trait_methods
  // ---------------------------------------------------------------------

  /** The methods among `items` that `select` picks, in item order. */
  function Selected(items: seq<ImplItem>, select: ImplItem -> bool): seq<ImplItemFn>
    decreases |items|
  {
    if items == [] then []
    else
      var last := items[|items| - 1];
      Selected(items[..|items| - 1], select) + (if last.FnItem? && select(last) then [last.fn] else [])
  }

  /** What a loop over `items` returns that, for each picked method, stops
      with the error `check` finds in it or else pushes its descriptor. */
  function Collect(items: seq<ImplItem>, select: ImplItem -> bool, check: ImplItemFn -> Option<string>,
                   describe: ImplItemFn -> FunctionInfo): Result<seq<FunctionInfo>, string>
    decreases |items|
  {
    if items == [] then Ok([])
    else
      var prev := Collect(items[..|items| - 1], select, check, describe);
      var last := items[|items| - 1];
      if prev.Err? || !(last.FnItem? && select(last)) then prev
      else if check(last.fn).Some? then Err(check(last.fn).value)
      else Ok(prev.value + [describe(last.fn)])
  }

  lemma {:induction false} CollectErrSticky(items: seq<ImplItem>, k: nat, select: ImplItem -> bool,
                                            check: ImplItemFn -> Option<string>, describe: ImplItemFn -> FunctionInfo)
    requires k <= |items| && Collect(items[..k], select, check, describe).Err?
    ensures Collect(items, select, check, describe) == Collect(items[..k], select, check, describe)
    decreases |items| - k
  {
    if k < |items| {
      assert items[..k + 1][..k] == items[..k];
      CollectErrSticky(items, k + 1, select, check, describe);
    } else {
      assert items[..k] == items;
    }
  }

  /** One more item: what the loop does with `items[k]` given the result
      for the items before it. */
  lemma CollectStep(items: seq<ImplItem>, k: nat, select: ImplItem -> bool,
                    check: ImplItemFn -> Option<string>, describe: ImplItemFn -> FunctionInfo)
    requires k < |items| && Collect(items[..k], select, check, describe).Ok?
    ensures !(items[k].FnItem? && select(items[k])) ==>
              Collect(items[..k + 1], select, check, describe) == Collect(items[..k], select, check, describe)
    ensures items[k].FnItem? && select(items[k]) && check(items[k].fn).Some? ==>
              Collect(items[..k + 1], select, check, describe) == Err(check(items[k].fn).value)
    ensures items[k].FnItem? && select(items[k]) && check(items[k].fn).None? ==>
              Collect(items[..k + 1], select, check, describe) ==
              Ok(Collect(items[..k], select, check, describe).value + [describe(items[k].fn)])
  {
    assert items[..k + 1][..k] == items[..k];
  }

  /** Some picked method has an error. */
  ghost predicate SomeError(fns: seq<ImplItemFn>, check: ImplItemFn -> Option<string>) {
    exists k :: 0 <= k < |fns| && check(fns[k]).Some?
  }

  /** The loop fails exactly when some picked method has an error, and the
      error is that of the first such method. */
  lemma {:induction false} CollectFails(items: seq<ImplItem>, select: ImplItem -> bool,
                                        check: ImplItemFn -> Option<string>, describe: ImplItemFn -> FunctionInfo)
    ensures Collect(items, select, check, describe).Err? <==> SomeError(Selected(items, select), check)
    ensures Collect(items, select, check, describe).Err? ==>
              exists k :: 0 <= k < |Selected(items, select)| &&
                          check(Selected(items, select)[k]) == Some(Collect(items, select, check, describe).error) &&
                          forall j :: 0 <= j < k ==> check(Selected(items, select)[j]).None?
    decreases |items|
  {
    if items != [] {
      var init := items[..|items| - 1];
      var last := items[|items| - 1];
      CollectFails(init, select, check, describe);
      var prev := Collect(init, select, check, describe);
      var before := Selected(init, select);
      var fns := Selected(items, select);
      assert fns == before + (if last.FnItem? && select(last) then [last.fn] else []);
      assert forall k :: 0 <= k < |before| ==> fns[k] == before[k];
      if prev.Err? {
        var k :| 0 <= k < |before| && check(before[k]) == Some(prev.error) &&
                 forall j :: 0 <= j < k ==> check(before[j]).None?;
        assert check(fns[k]).Some?;
      } else if last.FnItem? && select(last) {
        assert fns[|before|] == last.fn;
        if check(last.fn).None? {
          forall k | 0 <= k < |fns| ensures check(fns[k]).None? {
            if k < |before| { assert fns[k] == before[k]; }
          }
        }
      } else {
        assert fns == before;
      }
    }
  }

  /** A successful loop has one descriptor per picked method, in item
      order. */
  lemma {:induction false} CollectDescribes(items: seq<ImplItem>, select: ImplItem -> bool,
                                            check: ImplItemFn -> Option<string>, describe: ImplItemFn -> FunctionInfo)
    requires Collect(items, select, check, describe).Ok?
    ensures |Collect(items, select, check, describe).value| == |Selected(items, select)|
    ensures forall k :: 0 <= k < |Selected(items, select)| ==>
              Collect(items, select, check, describe).value[k] == describe(Selected(items, select)[k])
    decreases |items|
  {
    if items != [] {
      var init := items[..|items| - 1];
      var last := items[|items| - 1];
      assert Collect(init, select, check, describe).Ok?;
      CollectDescribes(init, select, check, describe);
    }
  }

  lemma {:induction false} SelectedMembers(items: seq<ImplItem>, select: ImplItem -> bool)
    ensures forall m :: m in Selected(items, select) <==>
              exists k :: 0 <= k < |items| && items[k].FnItem? && select(items[k]) && items[k].fn == m
    decreases |items|
  {
    if items != [] {
      var init := items[..|items| - 1];
      SelectedMembers(init, select);
      assert forall k :: 0 <= k < |init| ==> init[k] == items[k];
    }
  }

  // ---------------------------------------------------------------------
  // public_methods
  // ---------------------------------------------------------------------

  /** The methods of an inherent impl block that are exported: `pub`, and
      not the `new` constructor (`init` is exported). */
  predicate Exported(item: ImplItem) {
    item.FnItem? && item.fn.isPub && item.fn.sig.ident != "new"
  }

  /** The error `public_methods` reports for an exported method. */
  function FeedCheck(m: ImplItemFn, parseType: string -> Option<Ty>): Option<string> {
    if FeedViolation(m, parseType) then Some(FeedMessage(m.sig.ident)) else None
  }

  /** The per-method check and descriptor of `public_methods`. */
  function PublicCheck(parseType: string -> Option<Ty>): ImplItemFn -> Option<string> {
    m => FeedCheck(m, parseType)
  }

  function PublicDescribe(parseType: string -> Option<Ty>): ImplItemFn -> FunctionInfo {
    m => Describe(m, parseType, None)
  }

  /** What `public_methods` returns for a block's items. */
  function PublicMethodsSpec(items: seq<ImplItem>, parseType: string -> Option<Ty>): Result<seq<FunctionInfo>, string> {
    Collect(items, Exported, PublicCheck(parseType), PublicDescribe(parseType))
  }

  /** The check `public_methods` runs on an exported method. */
  method CheckPublicMethod(m: ImplItemFn, parseType: string -> Option<Ty>) returns (e: Option<string>)
    ensures e == FeedCheck(m, parseType)
  {
    var violation := CheckFeeds(m, parseType);
    e := if violation then Some(FeedMessage(m.sig.ident)) else None;
  }

  /** `public_methods`, the loop over the block's items. */
  method PublicMethods(items: seq<ImplItem>, parseType: string -> Option<Ty>)
    returns (r: Result<seq<FunctionInfo>, string>)
    ensures r == PublicMethodsSpec(items, parseType)
  {
    ghost var check := PublicCheck(parseType);
    ghost var describe := PublicDescribe(parseType);
    var functions: seq<FunctionInfo> := [];
    var k := 0;
    while k < |items|
      invariant 0 <= k <= |items|
      invariant Collect(items[..k], Exported, check, describe) == Ok(functions)
    {
      var item := items[k];
      CollectStep(items, k, Exported, check, describe);
      if item.FnItem? && item.fn.isPub && item.fn.sig.ident != "new" {
        var m := item.fn;
        var e := CheckPublicMethod(m, parseType);
        if e.Some? {
          assert check(m) == e;
          CollectErrSticky(items, k + 1, Exported, check, describe);
          return Err(e.value);
        }
        functions := functions + [Describe(m, parseType, None)];
      }
      k := k + 1;
    }
    assert items[..k] == items;
    r := Ok(functions);
  }

  /** Exactly the exported methods get descriptors, in item order; the
      extraction fails exactly when one of them calls `feed` without a
      feed type, and then with that error for the first such method. */
  lemma PublicMethodsExports(items: seq<ImplItem>, parseType: string -> Option<Ty>)
    ensures PublicMethodsSpec(items, parseType).Ok? ==>
              |PublicMethodsSpec(items, parseType).value| == |Selected(items, Exported)| &&
              forall k :: 0 <= k < |Selected(items, Exported)| ==>
                PublicMethodsSpec(items, parseType).value[k] == Describe(Selected(items, Exported)[k], parseType, None)
    ensures PublicMethodsSpec(items, parseType).Err? <==>
              exists k :: 0 <= k < |Selected(items, Exported)| && FeedViolation(Selected(items, Exported)[k], parseType)
  {
    var check := PublicCheck(parseType);
    var describe := PublicDescribe(parseType);
    CollectFails(items, Exported, check, describe);
    if PublicMethodsSpec(items, parseType).Ok? {
      CollectDescribes(items, Exported, check, describe);
    }
  }

  /** `new` is never exported, a `pub fn init` is, and inherent methods
      carry no trait name. */
  lemma PublicMethodsNames(items: seq<ImplItem>, parseType: string -> Option<Ty>, k: nat)
    requires PublicMethodsSpec(items, parseType).Ok?
    requires k < |items| && items[k].FnItem? && items[k].fn.isPub && items[k].fn.sig.ident == "init"
    ensures "init" in Names(PublicMethodsSpec(items, parseType).value)
    ensures "new" !in Names(PublicMethodsSpec(items, parseType).value)
    ensures forall f :: f in PublicMethodsSpec(items, parseType).value ==> f.traitName.None?
  {
    var check := PublicCheck(parseType);
    var describe := PublicDescribe(parseType);
    CollectDescribes(items, Exported, check, describe);
    SelectedMembers(items, Exported);
    var fs := PublicMethodsSpec(items, parseType).value;
    var fns := Selected(items, Exported);
    assert items[k].fn in fns;
    var j :| 0 <= j < |fns| && fns[j] == items[k].fn;
    assert fs[j].name == "init";
    assert Names(fs)[j] == "init";
    forall i | 0 <= i < |fs| ensures fs[i].name != "new" && fs[i].traitName.None? {
      assert fns[i] in fns;
    }
  }

  // ---------------------------------------------------------------------
  // trait_methods
  // ---------------------------------------------------------------------

  /** The methods of a trait impl named in its expose list. */
  predicate Listed(item: ImplItem, exposeList: seq<string>) {
    item.FnItem? && item.fn.sig.ident in exposeList
  }

  /** The descriptor of an exposed trait method: the trait name is recorded
      exactly for empty-body (default implementation) methods. */
  function DescribeTraitMethod(m: ImplItemFn, traitName: string, parseType: string -> Option<Ty>): FunctionInfo {
    Describe(m, parseType, if HasEmptyBody(m) then Some(traitName) else None)
  }

  /** The error, if any, `trait_methods` reports for one listed method:
      validation first, then a `feed` call without a feed type in a
      non-default body. */
  function TraitMethodError(m: ImplItemFn, traitName: string, parseType: string -> Option<Ty>): Option<string> {
    var v := TraitMethod(m, traitName, HasEmptyBody(m));
    if v.Err? then Some(v.error)
    else if !HasEmptyBody(m) && FeedViolation(m, parseType) then Some(FeedMessage(m.sig.ident))
    else None
  }

  /** The selection, check and descriptor of `trait_methods`. */
  function ListedIn(list: seq<string>): ImplItem -> bool {
    item => Listed(item, list)
  }

  function TraitCheck(traitName: string, parseType: string -> Option<Ty>): ImplItemFn -> Option<string> {
    m => TraitMethodError(m, traitName, parseType)
  }

  function TraitDescribe(traitName: string, parseType: string -> Option<Ty>): ImplItemFn -> FunctionInfo {
    m => DescribeTraitMethod(m, traitName, parseType)
  }

  /** The descriptors of the listed methods, in item order, or the first
      error. */
  function TraitFunctionsSpec(ti: TraitImplInfo, parseType: string -> Option<Ty>): Result<seq<FunctionInfo>, string> {
    Collect(ti.implBlock.items, ListedIn(ti.exposeList), TraitCheck(ti.traitName, parseType),
            TraitDescribe(ti.traitName, parseType))
  }

  function MissingMessage(name: string, traitName: string): string {
    "method `" + name + "` listed in expose but not found in `impl " + traitName + " for ...`; " +
    "add a stub with empty body `{}` to expose default implementations"
  }

  /** What `trait_methods` returns: the listed methods' descriptors, or the
      first error among them, or else the error for the first listed name
      no method carries. */
  function TraitMethodsSpec(ti: TraitImplInfo, parseType: string -> Option<Ty>): Result<seq<FunctionInfo>, string> {
    var fs := TraitFunctionsSpec(ti, parseType);
    if fs.Err? then fs
    else
      var missing := FirstIndex(ti.exposeList, (n: string) => n !in Names(fs.value));
      if missing.Some? then Err(MissingMessage(ti.exposeList[missing.value], ti.traitName)) else fs
  }

  lemma {:induction false} FirstIndexPrefix<T>(s: seq<T>, k: nat, p: T -> bool)
    requires k <= |s| && FirstIndex(s[..k], p).Some?
    ensures FirstIndex(s, p) == FirstIndex(s[..k], p)
    decreases |s| - k
  {
    if k < |s| {
      assert s[..k + 1][..k] == s[..k];
      FirstIndexPrefix(s, k + 1, p);
    } else {
      assert s[..k] == s;
    }
  }

  /** The checks `trait_methods` runs on one listed method: validation
      with the method's default-implementation flag, then the feed check
      for a non-default body. */
  method CheckTraitMethod(m: ImplItemFn, traitName: string, parseType: string -> Option<Ty>)
    returns (e: Option<string>)
    ensures e == TraitMethodError(m, traitName, parseType)
  {
    var isDefaultImpl := m.body == [];
    var v := TraitMethod(m, traitName, isDefaultImpl);
    if v.Err? {
      return Some(v.error);
    }
    var violation := CheckFeeds(m, parseType);
    if !isDefaultImpl && violation {
      return Some(FeedMessage(m.sig.ident));
    }
    e := None;
  }

  /** The first loop of `trait_methods`, over the impl's items. */
  method TraitFunctions(ti: TraitImplInfo, parseType: string -> Option<Ty>)
    returns (r: Result<seq<FunctionInfo>, string>)
    ensures r == TraitFunctionsSpec(ti, parseType)
  {
    ghost var select := ListedIn(ti.exposeList);
    ghost var check := TraitCheck(ti.traitName, parseType);
    ghost var describe := TraitDescribe(ti.traitName, parseType);
    var items := ti.implBlock.items;
    var functions: seq<FunctionInfo> := [];
    var k := 0;
    while k < |items|
      invariant 0 <= k <= |items|
      invariant Collect(items[..k], select, check, describe) == Ok(functions)
    {
      var item := items[k];
      CollectStep(items, k, select, check, describe);
      if item.FnItem? && item.fn.sig.ident in ti.exposeList {
        var m := item.fn;
        var e := CheckTraitMethod(m, ti.traitName, parseType);
        if e.Some? {
          assert check(m) == e;
          CollectErrSticky(items, k + 1, select, check, describe);
          return Err(e.value);
        }
        functions := functions + [DescribeTraitMethod(m, ti.traitName, parseType)];
      }
      k := k + 1;
    }
    assert items[..k] == items;
    r := Ok(functions);
  }

  /** The second loop of `trait_methods`: the first listed name that is not
      among `names`. */
  method FirstMissing(list: seq<string>, names: seq<string>) returns (r: Option<nat>)
    ensures r == FirstIndex(list, (n: string) => n !in names)
  {
    ghost var notFound := (n: string) => n !in names;
    var j := 0;
    while j < |list|
      invariant 0 <= j <= |list|
      invariant FirstIndex(list[..j], notFound).None?
    {
      assert list[..j + 1][..j] == list[..j];
      if list[j] !in names {
        assert FirstIndex(list[..j + 1], notFound) == Some(j);
        FirstIndexPrefix(list, j + 1, notFound);
        return Some(j);
      }
      j := j + 1;
    }
    assert list[..j] == list;
    r := None;
  }

  /** `trait_methods`: the listed methods' descriptors, then the check that
      every listed name was found. */
  method TraitMethods(ti: TraitImplInfo, parseType: string -> Option<Ty>)
    returns (r: Result<seq<FunctionInfo>, string>)
    ensures r == TraitMethodsSpec(ti, parseType)
  {
    var fs := TraitFunctions(ti, parseType);
    if fs.Err? {
      return fs;
    }
    var missing := FirstMissing(ti.exposeList, Names(fs.value));
    if missing.Some? {
      return Err(MissingMessage(ti.exposeList[missing.value], ti.traitName));
    }
    r := fs;
  }

  /** A successful extraction has one descriptor per listed method, in item
      order, carrying the trait name exactly when the method's body is
      empty; every listed name is among them. */
  lemma TraitMethodsExports(ti: TraitImplInfo, parseType: string -> Option<Ty>)
    requires TraitMethodsSpec(ti, parseType).Ok?
    ensures |TraitMethodsSpec(ti, parseType).value| == |Selected(ti.implBlock.items, ListedIn(ti.exposeList))|
    ensures forall k :: 0 <= k < |TraitMethodsSpec(ti, parseType).value| ==>
              var f := TraitMethodsSpec(ti, parseType).value[k];
              var m := Selected(ti.implBlock.items, ListedIn(ti.exposeList))[k];
              f.name == m.sig.ident && f.name in ti.exposeList &&
              (f.traitName == Some(ti.traitName) <==> HasEmptyBody(m)) &&
              (f.traitName.None? <==> !HasEmptyBody(m))
    ensures forall n :: n in ti.exposeList ==> n in Names(TraitMethodsSpec(ti, parseType).value)
  {
    var select := ListedIn(ti.exposeList);
    var check := TraitCheck(ti.traitName, parseType);
    var describe := TraitDescribe(ti.traitName, parseType);
    var fs := TraitFunctionsSpec(ti, parseType);
    CollectDescribes(ti.implBlock.items, select, check, describe);
    SelectedMembers(ti.implBlock.items, select);
    var fns := Selected(ti.implBlock.items, select);
    forall k | 0 <= k < |fns| ensures fns[k].sig.ident in ti.exposeList {
      assert fns[k] in fns;
    }
    var notFound := (n: string) => n !in Names(fs.value);
    FirstIndexSpec(ti.exposeList, notFound);
    forall n | n in ti.exposeList ensures n in Names(fs.value) {
      var k :| 0 <= k < |ti.exposeList| && ti.exposeList[k] == n;
      assert !notFound(ti.exposeList[k]);
    }
  }

  /** A listed name that no method of the impl carries makes the extraction
      fail. */
  lemma TraitMethodsMissing(ti: TraitImplInfo, parseType: string -> Option<Ty>, n: string)
    requires n in ti.exposeList
    requires forall k :: 0 <= k < |ti.implBlock.items| ==>
               !(ti.implBlock.items[k].FnItem? && ti.implBlock.items[k].fn.sig.ident == n)
    ensures TraitMethodsSpec(ti, parseType).Err?
  {
    var select := ListedIn(ti.exposeList);
    var check := TraitCheck(ti.traitName, parseType);
    var describe := TraitDescribe(ti.traitName, parseType);
    var fs := TraitFunctionsSpec(ti, parseType);
    if fs.Ok? {
      CollectDescribes(ti.implBlock.items, select, check, describe);
      SelectedMembers(ti.implBlock.items, select);
      var fns := Selected(ti.implBlock.items, select);
      forall k | 0 <= k < |fs.value| ensures Names(fs.value)[k] != n {
        assert fns[k] in fns;
      }
      var notFound := (x: string) => x !in Names(fs.value);
      FirstIndexSpec(ti.exposeList, notFound);
      var i :| 0 <= i < |ti.exposeList| && ti.exposeList[i] == n;
      assert notFound(ti.exposeList[i]);
    }
  }

  // ---------------------------------------------------------------------
  // expose_list
  // ---------------------------------------------------------------------

  /** The identifiers among a token stream's top-level tokens: a name is
      listed exactly when some token is that identifier, and a stream of
      identifiers alone gives their names one for one. */
  function IdentNames(ts: seq<Token>): (r: seq<string>)
    ensures |r| <= |ts|
    ensures forall n :: n in r <==> exists k :: 0 <= k < |ts| && ts[k].Ident? && ts[k].name == n
    ensures (forall k :: 0 <= k < |ts| ==> ts[k].Ident?) ==>
              |r| == |ts| && forall k :: 0 <= k < |ts| ==> r[k] == ts[k].name
    decreases |ts|
  {
    if ts == [] then []
    else
      var rest := IdentNames(ts[1..]);
      assert forall k :: 1 <= k < |ts| ==> ts[k] == ts[1..][k - 1];
      assert forall k :: 0 <= k < |ts| - 1 ==> ts[1..][k] == ts[k + 1];
      (if ts[0].Ident? then [ts[0].name] else []) + rest
  }

  /** The names keep the order of the tokens: the names of a concatenation
      are the names of its first part followed by those of its second. */
  lemma {:induction false} IdentNamesAppend(a: seq<Token>, b: seq<Token>)
    ensures IdentNames(a + b) == IdentNames(a) + IdentNames(b)
    decreases |a|
  {
    if a == [] {
      assert a + b == b;
    } else {
      IdentNamesAppend(a[1..], b);
      assert (a + b)[1..] == a[1..] + b;
    }
  }

  /** The method names of one `#[contract(expose = [a, b])]` attribute. */
  function ExposeCandidate(a: Attribute): Option<seq<string>> {
    var ts := ContractList(a);
    if ts.Some? && |ts.value| >= 3 && ts.value[0] == Ident("expose") && ts.value[1] == Punct('=') &&
       ts.value[2].Group? && ts.value[2].delim == Bracket
    then Some(IdentNames(ts.value[2].stream))
    else None
  }

  /** The expose list of the first attribute that carries one. */
  function ExposeListSpec(attrs: seq<Attribute>): (r: Option<seq<string>>)
    ensures r.None? <==> forall k :: 0 <= k < |attrs| ==> ExposeCandidate(attrs[k]).None?
    ensures r.Some? ==> exists k :: 0 <= k < |attrs| && ExposeCandidate(attrs[k]) == r &&
                          forall j :: 0 <= j < k ==> ExposeCandidate(attrs[j]).None?
    decreases |attrs|
  {
    if attrs == [] then None
    else if ExposeCandidate(attrs[0]).Some? then ExposeCandidate(attrs[0])
    else
      var r := ExposeListSpec(attrs[1..]);
      assert forall k :: 1 <= k < |attrs| ==> attrs[k] == attrs[1..][k - 1];
      if r.Some? then
        var k :| 0 <= k < |attrs[1..]| && ExposeCandidate(attrs[1..][k]) == r &&
                 forall j :: 0 <= j < k ==> ExposeCandidate(attrs[1..][j]).None?;
        assert ExposeCandidate(attrs[k + 1]) == r;
        r
      else r
  }

  /** `expose_list`: the loop that returns at the first matching attribute. */
  method ExposeList(attrs: seq<Attribute>) returns (r: Option<seq<string>>)
    ensures r == ExposeListSpec(attrs)
  {
    var k := 0;
    while k < |attrs|
      invariant 0 <= k <= |attrs|
      invariant ExposeListSpec(attrs) == ExposeListSpec(attrs[k..])
    {
      assert attrs[k..][1..] == attrs[k + 1..];
      var c := ExposeCandidate(attrs[k]);
      if c.Some? {
        return c;
      }
      k := k + 1;
    }
    r := None;
  }

  // ---------------------------------------------------------------------
  // Custom data-driver handlers
  // ---------------------------------------------------------------------

  function RoleOf(name: string): Option<DataDriverRole> {
    if name == "encode_input" then Some(EncodeInput)
    else if name == "decode_input" then Some(DecodeInput)
    else if name == "decode_output" then Some(DecodeOutput)
    else None
  }

  /** The function with its `contract` attributes removed. */
  function WithoutContractAttrs(f: ItemFn): (g: ItemFn)
    ensures g.ident == f.ident && g.body == f.body
    ensures forall k :: 0 <= k < |g.attrs| ==> !AttrIs(g.attrs[k], "contract") && g.attrs[k] in f.attrs
  {
    f.(attrs := FilterNonContract(f.attrs))
  }

  function FilterNonContract(attrs: seq<Attribute>): (r: seq<Attribute>)
    ensures forall k :: 0 <= k < |r| ==> !AttrIs(r[k], "contract") && r[k] in attrs
    decreases |attrs|
  {
    if attrs == [] then []
    else (if AttrIs(attrs[0], "contract") then [] else [attrs[0]]) + FilterNonContract(attrs[1..])
  }

  /** The handler one attribute of `f` declares:
      `#[contract(<role> = "<fn name>")]`. */
  function HandlerOf(a: Attribute, f: ItemFn): Option<CustomDataDriverHandler> {
    var ts := ContractList(a);
    if ts.Some? && |ts.value| >= 3 && ts.value[0].Ident? && RoleOf(ts.value[0].name).Some? &&
       ts.value[1] == Punct('=') && ts.value[2].Literal?
    then Some(CustomDataDriverHandler(TrimMatches(ts.value[2].text, '"'), RoleOf(ts.value[0].name).value,
                                      WithoutContractAttrs(f)))
    else None
  }

  /** The handlers declared by the attributes of `f`, one per attribute, in
      order. */
  function HandlersOfFn(f: ItemFn): seq<CustomDataDriverHandler> {
    Flatten(seq(|f.attrs|, i requires 0 <= i < |f.attrs| => OptList(HandlerOf(f.attrs[i], f))))
  }

  function HandlersOfItem(item: Item): seq<CustomDataDriverHandler> {
    if item.FnDecl? then HandlersOfFn(item.func) else []
  }

  function HandlersSpec(items: seq<Item>): seq<CustomDataDriverHandler> {
    Flatten(seq(|items|, i requires 0 <= i < |items| => HandlersOfItem(items[i])))
  }

  /** `custom_data_driver_handlers`: the nested loop over functions and
      their attributes. */
  method CustomDataDriverHandlers(items: seq<Item>) returns (handlers: seq<CustomDataDriverHandler>)
    ensures handlers == HandlersSpec(items)
  {
    ghost var parts := seq(|items|, i requires 0 <= i < |items| => HandlersOfItem(items[i]));
    handlers := [];
    var k := 0;
    while k < |items|
      invariant 0 <= k <= |items|
      invariant handlers == Flatten(parts[..k])
    {
      FlattenSnoc(parts, k);
      if items[k].FnDecl? {
        var f := items[k].func;
        ghost var fparts := seq(|f.attrs|, i requires 0 <= i < |f.attrs| => OptList(HandlerOf(f.attrs[i], f)));
        ghost var before := handlers;
        var j := 0;
        while j < |f.attrs|
          invariant 0 <= j <= |f.attrs|
          invariant handlers == before + Flatten(fparts[..j])
        {
          FlattenSnoc(fparts, j);
          var h := HandlerOf(f.attrs[j], f);
          if h.Some? {
            handlers := handlers + [h.value];
          }
          j := j + 1;
        }
        assert fparts[..j] == fparts;
      }
      k := k + 1;
    }
    assert parts[..k] == parts;
  }

  /** `is_custom_handler`: a function whose some `contract(...)` attribute
      starts with a role name. */
  predicate IsCustomHandler(item: Item) {
    item.FnDecl? &&
    exists k :: 0 <= k < |item.func.attrs| && StartsWithRole(item.func.attrs[k])
  }

  predicate StartsWithRole(a: Attribute) {
    var ts := ContractList(a);
    ts.Some? && |ts.value| >= 1 && ts.value[0].Ident? && RoleOf(ts.value[0].name).Some?
  }

  /** Every handler is declared by a function that `IsCustomHandler`
      recognises, so removing those functions from the module loses no
      handler's function. */
  lemma HandlerItemsAreCustom(item: Item)
    ensures HandlersOfItem(item) != [] ==> IsCustomHandler(item)
  {
    if item.FnDecl? && !IsCustomHandler(item) {
      var f := item.func;
      var parts := seq(|f.attrs|, i requires 0 <= i < |f.attrs| => OptList(HandlerOf(f.attrs[i], f)));
      assert forall i :: 0 <= i < |f.attrs| ==> !StartsWithRole(f.attrs[i]);
      FlattenEmpty(parts);
    }
  }

  lemma {:induction false} FlattenEmpty<T>(ss: seq<seq<T>>)
    requires forall i :: 0 <= i < |ss| ==> ss[i] == []
    ensures Flatten(ss) == []
    decreases |ss|
  {
    if ss != [] {
      FlattenEmpty(ss[1..]);
    }
  }

  // ---------------------------------------------------------------------
  // Module-level checks
  // ---------------------------------------------------------------------

  predicate IsGlobUse(item: Item) {
    item.UseItem? && ImportsFromUse(item.tree).hasGlob
  }

  predicate IsRelativeUse(item: Item) {
    item.UseItem? && ImportsFromUse(item.tree).hasRelative
  }

  function UseImports(item: Item): seq<ImportInfo> {
    if item.UseItem? then ImportsFromUse(item.tree).imports else []
  }

  function AllImports(items: seq<Item>): seq<ImportInfo> {
    Flatten(seq(|items|, i requires 0 <= i < |items| => UseImports(items[i])))
  }

  const GlobMessage := "#[contract] does not support glob imports (`use foo::*`); import types explicitly so their paths can be tracked"
  const RelativeMessage := "#[contract] does not support relative imports (`use self::`, `use super::`, `use crate::`); use absolute paths so they can be resolved for code generation"

  /** What `imports` returns: every import of every `use` item in order,
      unless some `use` has a glob (that error first) or is relative. */
  function ImportsSpec(items: seq<Item>): Result<seq<ImportInfo>, string> {
    if FirstIndex(items, IsGlobUse).Some? then Err(GlobMessage)
    else if FirstIndex(items, IsRelativeUse).Some? then Err(RelativeMessage)
    else Ok(AllImports(items))
  }

  /** `imports`: the loop that collects imports and remembers the first glob
      and the first relative `use`; the positions it remembers are the ones
      the errors are reported at. */
  method Imports(items: seq<Item>) returns (r: Result<seq<ImportInfo>, string>, at: Option<nat>)
    ensures r == ImportsSpec(items)
    ensures at == (if FirstIndex(items, IsGlobUse).Some? then FirstIndex(items, IsGlobUse)
                   else FirstIndex(items, IsRelativeUse))
  {
    ghost var parts := seq(|items|, i requires 0 <= i < |items| => UseImports(items[i]));
    var result: seq<ImportInfo> := [];
    var globAt: Option<nat> := None;
    var relativeAt: Option<nat> := None;
    var k := 0;
    while k < |items|
      invariant 0 <= k <= |items|
      invariant result == Flatten(parts[..k])
      invariant globAt == FirstIndex(items[..k], IsGlobUse)
      invariant relativeAt == FirstIndex(items[..k], IsRelativeUse)
    {
      FlattenSnoc(parts, k);
      assert items[..k + 1][..k] == items[..k];
      var item := items[k];
      if item.UseItem? {
        var e := ImportsFromUse(item.tree);
        result := result + e.imports;
        if e.hasGlob && globAt.None? {
          globAt := Some(k);
        }
        if e.hasRelative && relativeAt.None? {
          relativeAt := Some(k);
        }
      }
      k := k + 1;
    }
    assert parts[..k] == parts;
    assert items[..k] == items;
    if globAt.Some? {
      return Err(GlobMessage), globAt;
    }
    if relativeAt.Some? {
      return Err(RelativeMessage), relativeAt;
    }
    return Ok(result), None;
  }

  /** The imports are accepted exactly when no `use` has a glob or a
      relative path, and a glob anywhere wins over a relative path. (The
      positions `Imports` reports are first matches by `FirstIndexSpec`.) */
  lemma ImportsErrors(items: seq<Item>)
    ensures ImportsSpec(items).Ok? <==> forall k :: 0 <= k < |items| ==> !IsGlobUse(items[k]) && !IsRelativeUse(items[k])
    ensures (exists k :: 0 <= k < |items| && IsGlobUse(items[k])) ==> ImportsSpec(items) == Err(GlobMessage)
  {
    FirstIndexSpec(items, IsGlobUse);
    FirstIndexSpec(items, IsRelativeUse);
  }

  predicate IsPubStruct(item: Item) {
    item.StructItem? && item.isPub
  }

  /** The names of the `pub` structs, in item order. */
  function PubStructs(items: seq<Item>): seq<string>
    decreases |items|
  {
    if items == [] then []
    else (if IsPubStruct(items[0]) then [items[0].ident] else []) + PubStructs(items[1..])
  }

  const NoStructMessage := "#[contract] module must contain a pub struct for the contract state"
  const ManyStructsMessage := "#[contract] module must contain exactly one pub struct; found multiple public structs"

  /** `contract_struct`: the one `pub` struct's name, or an error for none
      or several. */
  function ContractStruct(items: seq<Item>): (r: Result<string, string>)
    ensures r.Ok? <==> |PubStructs(items)| == 1
    ensures r.Ok? ==> r.value == PubStructs(items)[0]
    ensures |PubStructs(items)| == 0 ==> r == Err(NoStructMessage)
    ensures |PubStructs(items)| > 1 ==> r == Err(ManyStructsMessage)
  {
    var structs := PubStructs(items);
    if |structs| == 0 then Err(NoStructMessage)
    else if |structs| > 1 then Err(ManyStructsMessage)
    else Ok(structs[0])
  }

  /** The names in `PubStructs` are exactly the `pub` structs' names. */
  lemma {:induction false} PubStructsMembers(items: seq<Item>)
    ensures forall n :: n in PubStructs(items) <==>
              exists k :: 0 <= k < |items| && IsPubStruct(items[k]) && items[k].ident == n
    decreases |items|
  {
    if items != [] {
      PubStructsMembers(items[1..]);
      assert forall k :: 1 <= k < |items| ==> items[k] == items[1..][k - 1];
    }
  }

  /** `impl <contract name> { ... }` without a trait. */
  predicate IsInherentImpl(item: Item, name: string) {
    item.ImplBlock? && item.block.traitPath.None? && IsIdentPath(item.block.selfTy, name)
  }

  /** An item's contribution to `impl_blocks`: its block, if it is an
      inherent impl of the contract type. */
  function InherentBlock(name: string): Item -> seq<ItemImpl> {
    (it: Item) => if IsInherentImpl(it, name) then [it.block] else []
  }

  /** `impl_blocks`: the inherent impls of the contract type, all of them
      and in item order. */
  function ImplBlocks(items: seq<Item>, name: string): (r: seq<ItemImpl>)
    ensures forall k :: 0 <= k < |r| ==> r[k].traitPath.None? && IsIdentPath(r[k].selfTy, name)
    ensures forall k :: 0 <= k < |items| && IsInherentImpl(items[k], name) ==> items[k].block in r
  {
    ConcatMapMembers(InherentBlock(name), items);
    var r := ConcatMap(InherentBlock(name), items);
    assert forall k :: 0 <= k < |r| ==> r[k].traitPath.None? && IsIdentPath(r[k].selfTy, name) by {
      forall k | 0 <= k < |r| ensures r[k].traitPath.None? && IsIdentPath(r[k].selfTy, name) {
        assert r[k] in r;
        var j :| 0 <= j < |items| && r[k] in InherentBlock(name)(items[j]);
      }
    }
    r
  }

  /** A block is collected exactly when some item is that inherent impl. */
  lemma ImplBlocksMembers(items: seq<Item>, name: string)
    ensures forall b :: b in ImplBlocks(items, name) <==>
              exists k :: 0 <= k < |items| && IsInherentImpl(items[k], name) && items[k].block == b
  {
    ConcatMapMembers(InherentBlock(name), items);
  }

  /** The blocks of a longer module follow those of its first part. */
  lemma ImplBlocksAppend(items: seq<Item>, more: seq<Item>, name: string)
    ensures ImplBlocks(items + more, name) == ImplBlocks(items, name) + ImplBlocks(more, name)
  {
    ConcatMapAppend(InherentBlock(name), items, more);
  }

  /** `impl <trait> for <contract name>` with an expose list. */
  function TraitImplOf(item: Item, name: string): Option<TraitImplInfo> {
    if item.ImplBlock? && item.block.traitPath.Some? && IsIdentPath(item.block.selfTy, name) &&
       ExposeListSpec(item.block.attrs).Some?
    then Some(TraitImplInfo(Join(item.block.traitPath.value, "::"), item.block,
                            ExposeListSpec(item.block.attrs).value))
    else None
  }

  /** An item's contribution to `trait_impls`. */
  function TraitImplList(name: string): Item -> seq<TraitImplInfo> {
    (it: Item) => OptList(TraitImplOf(it, name))
  }

  /** `trait_impls`: the exposing trait impls of the contract type, all of
      them and in item order. */
  function TraitImpls(items: seq<Item>, name: string): (r: seq<TraitImplInfo>)
    ensures forall k :: 0 <= k < |r| ==> r[k].implBlock.traitPath.Some? &&
                                          IsIdentPath(r[k].implBlock.selfTy, name) &&
                                          r[k].traitName == Join(r[k].implBlock.traitPath.value, "::") &&
                                          ExposeListSpec(r[k].implBlock.attrs) == Some(r[k].exposeList)
    ensures forall k :: 0 <= k < |items| && TraitImplOf(items[k], name).Some? ==> TraitImplOf(items[k], name).value in r
  {
    ConcatMapMembers(TraitImplList(name), items);
    var r := ConcatMap(TraitImplList(name), items);
    assert forall k :: 0 <= k < |r| ==> r[k].implBlock.traitPath.Some? &&
                                        IsIdentPath(r[k].implBlock.selfTy, name) &&
                                        r[k].traitName == Join(r[k].implBlock.traitPath.value, "::") &&
                                        ExposeListSpec(r[k].implBlock.attrs) == Some(r[k].exposeList) by {
      forall k | 0 <= k < |r|
        ensures r[k].implBlock.traitPath.Some? && IsIdentPath(r[k].implBlock.selfTy, name) &&
                r[k].traitName == Join(r[k].implBlock.traitPath.value, "::") &&
                ExposeListSpec(r[k].implBlock.attrs) == Some(r[k].exposeList)
      {
        assert r[k] in r;
        var j :| 0 <= j < |items| && r[k] in TraitImplList(name)(items[j]);
        assert TraitImplOf(items[j], name) == Some(r[k]);
      }
    }
    r
  }

  /** A trait impl is collected exactly when some item is an exposing
      `impl <trait> for <contract name>`. */
  lemma TraitImplsMembers(items: seq<Item>, name: string)
    ensures forall t :: t in TraitImpls(items, name) <==>
              exists k :: 0 <= k < |items| && TraitImplOf(items[k], name) == Some(t)
  {
    ConcatMapMembers(TraitImplList(name), items);
  }

  /** The trait impls of a longer module follow those of its first part. */
  lemma TraitImplsAppend(items: seq<Item>, more: seq<Item>, name: string)
    ensures TraitImpls(items + more, name) == TraitImpls(items, name) + TraitImpls(more, name)
  {
    ConcatMapAppend(TraitImplList(name), items, more);
  }

  function NoImplMessage(name: string): string {
    "#[contract] module must contain an impl block for `" + name + "`"
  }

  /** The first error among the inherent blocks' method validations. */
  function ValidateBlocks(blocks: seq<ItemImpl>): Result<(), string>
    decreases |blocks|
  {
    if blocks == [] then Ok(())
    else
      var v := ImplBlockMethods(blocks[0].items);
      if v.Err? then v else ValidateBlocks(blocks[1..])
  }

  /** `contract_data`: imports, the contract struct, at least one inherent
      impl block, method validation, `new` and `init`, then the exposed
      trait impls and the custom handlers, stopping at the first error. */
  function ContractDataOf(items: seq<Item>): (r: Result<ContractData, string>)
    ensures r.Ok? ==> ImportsSpec(items) == Ok(r.value.imports) &&
                      PubStructs(items) == [r.value.contractName] &&
                      r.value.implBlocks == ImplBlocks(items, r.value.contractName) && r.value.implBlocks != [] &&
                      ValidateBlocks(r.value.implBlocks).Ok? &&
                      NewConstructor(r.value.contractName, r.value.implBlocks).Ok? &&
                      InitMethod(r.value.contractName, r.value.implBlocks).Ok?
  {
    var imports := ImportsSpec(items);
    if imports.Err? then Err(imports.error)
    else
      var s := ContractStruct(items);
      if s.Err? then Err(s.error)
      else
        var name := s.value;
        var blocks := ImplBlocks(items, name);
        if blocks == [] then Err(NoImplMessage(name))
        else
          var v := ValidateBlocks(blocks);
          if v.Err? then Err(v.error)
          else
            var n := NewConstructor(name, blocks);
            if n.Err? then Err(n.error)
            else
              var i := InitMethod(name, blocks);
              if i.Err? then Err(i.error)
              else Ok(ContractData(imports.value, name, blocks, TraitImpls(items, name), HandlersSpec(items)))
  }
}
