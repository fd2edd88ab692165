/** The descriptor records the `#[contract]` macro builds while reading a
    contract module, and the small attribute and signature helpers that
    fill them in. */
module Descriptors {
  import opened Common
  import opened Syntax

  /** An imported name: the short name (or alias) used in the module and the
      full path it stands for. */
  datatype ImportInfo = ImportInfo(name: string, path: string)

  /** A method's receiver. */
  datatype Receiver = NoReceiver | Ref | RefMut

  /** A parameter after the receiver: `ty` is the pointee for a reference
      parameter, which `isRef` (and `isMutRef` for `&mut`) then records. */
  datatype ParameterInfo = ParameterInfo(name: string, ty: Ty, isRef: bool, isMutRef: bool)

  /** An exported contract function. */
  datatype FunctionInfo = FunctionInfo(
    name: string,
    doc: Option<string>,
    params: seq<ParameterInfo>,
    inputType: Ty,
    outputType: Ty,
    isCustom: bool,
    returnsRef: bool,
    receiver: Receiver,
    traitName: Option<string>,
    feedType: Option<Ty>)

  /** An event found in an `emit` call. `fromLiteral` says whether the topic
      was written as a string literal rather than a path; the macro's own
      record does not keep it, and only the corrected `decode_event`
      generator reads it. */
  datatype EventInfo = EventInfo(topic: string, dataType: Ty, fromLiteral: bool)

  datatype DataDriverRole = EncodeInput | DecodeInput | DecodeOutput

  /** A free function that implements one data-driver role for `fnName`. */
  datatype CustomDataDriverHandler = CustomDataDriverHandler(
    fnName: string,
    role: DataDriverRole,
    func: ItemFn)

  /** What one `use` item contributes. */
  datatype ImportExtraction = ImportExtraction(
    imports: seq<ImportInfo>,
    hasGlob: bool,
    hasRelative: bool)

  /** A trait impl for the contract carrying an expose list. */
  datatype TraitImplInfo = TraitImplInfo(
    traitName: string,
    implBlock: ItemImpl,
    exposeList: seq<string>)

  /** The validated pieces of a contract module. */
  datatype ContractData = ContractData(
    imports: seq<ImportInfo>,
    contractName: string,
    implBlocks: seq<ItemImpl>,
    traitImpls: seq<TraitImplInfo>,
    customHandlers: seq<CustomDataDriverHandler>)

  // ---------------------------------------------------------------------
  // Helpers
  // ---------------------------------------------------------------------

  predicate IsRelativePathKeyword(ident: string) {
    ident == "self" || ident == "super" || ident == "crate"
  }

  /** A body with no statements: in a trait impl it asks for the trait's
      default implementation. */
  predicate HasEmptyBody(m: ImplItemFn) {
    m.body == []
  }

  /** The receiver of a method, read from its first input. A by-value
      `mut self` counts as mutable. */
  function ExtractReceiver(m: ImplItemFn): (r: Receiver)
    ensures r == NoReceiver <==> (m.sig.inputs == [] || !m.sig.inputs[0].SelfArg?)
    ensures r == RefMut <==> (m.sig.inputs != [] && m.sig.inputs[0].SelfArg? && m.sig.inputs[0].mutable)
  {
    if m.sig.inputs != [] && m.sig.inputs[0].SelfArg? then
      (if m.sig.inputs[0].mutable then RefMut else Ref)
    else NoReceiver
  }

  /** The text of a `#[doc = "..."]` attribute, if `a` is one. */
  function DocText(a: Attribute): Option<string> {
    if AttrIs(a, "doc") && a.meta.MetaNameValue? && a.meta.value.ELitStr?
    then Some(a.meta.value.value) else None
  }

  /** The trimmed doc strings of `attrs`, in attribute order. */
  function DocLines(attrs: seq<Attribute>): seq<string> {
    ConcatMap(DocLine, attrs)
  }

  /** The trimmed doc string of one attribute, as a list of at most one. */
  function DocLine(a: Attribute): seq<string> {
    var d := DocText(a);
    if d.Some? then [Trim(d.value)] else []
  }

  /** The doc comment of a method: its doc strings, trimmed and joined by
      single spaces; None when it has none. */
  function ExtractDocComment(attrs: seq<Attribute>): (r: Option<string>)
    ensures r.None? <==> forall k :: 0 <= k < |attrs| ==> DocText(attrs[k]).None?
    ensures r.Some? ==> r.value == Join(DocLines(attrs), " ")
  {
    DocLinesEmpty(attrs);
    var docs := DocLines(attrs);
    if docs == [] then None else Some(Join(docs, " "))
  }

  lemma {:induction false} DocLinesEmpty(attrs: seq<Attribute>)
    ensures DocLines(attrs) == [] <==> forall k :: 0 <= k < |attrs| ==> DocText(attrs[k]).None?
    decreases |attrs|
  {
    if attrs != [] {
      DocLinesEmpty(attrs[1..]);
      assert forall k :: 1 <= k < |attrs| ==> attrs[k] == attrs[1..][k - 1];
    }
  }

  /** At most one doc line per attribute. */
  lemma {:induction false} DocLinesBound(attrs: seq<Attribute>)
    ensures |DocLines(attrs)| <= |attrs|
    decreases |attrs|
  {
    if attrs != [] {
      DocLinesBound(attrs[1..]);
    }
  }

  lemma {:induction false} JoinAppend(a: seq<string>, b: seq<string>, sep: string)
    requires a != [] && b != []
    ensures Join(a + b, sep) == Join(a, sep) + sep + Join(b, sep)
    decreases |a|
  {
    if |a| == 1 {
      assert (a + b)[1..] == b;
    } else {
      JoinAppend(a[1..], b, sep);
      assert (a + b)[1..] == a[1..] + b;
    }
  }

  /** Doc strings are kept in attribute order: the doc comment of two runs of
      attributes that both carry documentation is the first run's, a space,
      then the second run's; attributes without doc text change nothing. */
  lemma DocCommentConcat(a: seq<Attribute>, b: seq<Attribute>)
    ensures ExtractDocComment(a).Some? && ExtractDocComment(b).Some? ==>
      ExtractDocComment(a + b) == Some(ExtractDocComment(a).value + " " + ExtractDocComment(b).value)
    ensures ExtractDocComment(b).None? ==> ExtractDocComment(a + b) == ExtractDocComment(a)
  {
    ConcatMapAppend(DocLine, a, b);
    DocLinesEmpty(a);
    DocLinesEmpty(b);
    DocLinesEmpty(a + b);
    if DocLines(a) != [] && DocLines(b) != [] {
      JoinAppend(DocLines(a), DocLines(b), " ");
    }
    if DocLines(b) == [] {
      assert DocLines(a + b) == DocLines(a);
    }
  }

  /** Whether `a` is a `contract(...)` list attribute whose token text
      mentions `custom` anywhere. */
  predicate IsCustomMarker(a: Attribute) {
    var ts := ContractList(a);
    ts.Some? && Contains(TokensText(ts.value), "custom")
  }

  /** `#[contract(custom)]` detection: any contract list attribute whose
      token text contains the substring `custom`. */
  function HasCustomAttribute(attrs: seq<Attribute>): (r: bool)
    ensures r <==> exists k :: 0 <= k < |attrs| && IsCustomMarker(attrs[k])
    decreases |attrs|
  {
    if attrs == [] then false
    else if IsCustomMarker(attrs[0]) then true
    else
      var r := HasCustomAttribute(attrs[1..]);
      assert r <==> exists k :: 1 <= k < |attrs| && IsCustomMarker(attrs[k]) by {
        if r {
          var k :| 0 <= k < |attrs[1..]| && IsCustomMarker(attrs[1..][k]);
          assert IsCustomMarker(attrs[k + 1]);
        }
        forall k | 1 <= k < |attrs| && IsCustomMarker(attrs[k])
          ensures exists j :: 0 <= j < |attrs[1..]| && IsCustomMarker(attrs[1..][j])
        {
          assert attrs[1..][k - 1] == attrs[k];
        }
      }
      r
  }

  /** The type named by one `#[contract(feeds = "T")]` attribute, if `a`
      is one and its quote-stripped literal parses as a type. */
  function FeedsCandidate(a: Attribute, parseType: string -> Option<Ty>): Option<Ty> {
    var ts := ContractList(a);
    if ts.Some? && |ts.value| >= 3 && ts.value[0] == Ident("feeds") &&
       ts.value[1] == Punct('=') && ts.value[2].Literal?
    then parseType(TrimMatches(ts.value[2].text, '"'))
    else None
  }

  /** The feed type: the first attribute that names one; later ones are
      ignored. */
  function ExtractFeedsAttribute(attrs: seq<Attribute>, parseType: string -> Option<Ty>): (r: Option<Ty>)
    ensures r.None? <==> forall k :: 0 <= k < |attrs| ==> FeedsCandidate(attrs[k], parseType).None?
    ensures r.Some? ==> exists k :: 0 <= k < |attrs| && FeedsCandidate(attrs[k], parseType) == r &&
                          forall j :: 0 <= j < k ==> FeedsCandidate(attrs[j], parseType).None?
  {
    FirstSome(attrs, (a: Attribute) => FeedsCandidate(a, parseType))
  }

  /** The argument expression that passes a parameter to the method: the
      parameter borrowed back as `&mut name` or `&name` when the method
      takes it by reference. */
  function GenerateArgExpr(p: ParameterInfo): (r: string)
    ensures p.isMutRef ==> r == "&mut " + p.name
    ensures !p.isMutRef && p.isRef ==> r == "&" + p.name
    ensures !p.isMutRef && !p.isRef ==> r == p.name
  {
    if p.isMutRef then "&mut " + p.name
    else if p.isRef then "&" + p.name
    else p.name
  }

  /** The type of the argument expression built for `p`. */
  function ArgType(p: ParameterInfo): Ty {
    if p.isMutRef then TRef(true, p.ty) else if p.isRef then TRef(false, p.ty) else p.ty
  }

  /** The argument is borrowed as `&mut` exactly when the parameter's
      declared type is `&mut` of its pointee, as `&` exactly when it is
      `&` of it, and passed by value exactly when it is declared by value. */
  lemma ArgExprFollowsType(p: ParameterInfo)
    ensures GenerateArgExpr(p) == "&mut " + p.name <==> ArgType(p) == TRef(true, p.ty)
    ensures GenerateArgExpr(p) == "&" + p.name <==> ArgType(p) == TRef(false, p.ty)
    ensures GenerateArgExpr(p) == p.name <==> ArgType(p) == p.ty
  {
    assert |"&mut " + p.name| != |"&" + p.name|;
    assert |"&mut " + p.name| != |p.name| && |"&" + p.name| != |p.name|;
  }
}
