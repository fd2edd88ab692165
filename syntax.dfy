/** The slice of Rust syntax that the `#[contract]` macro inspects: types,
    `use` trees, expressions, attribute token streams, method signatures and
    module items.  These stand for the syn syntax trees the macro receives;
    parsing Rust text into them is outside the model. */
module Syntax {
  import opened Common

  // ---------------------------------------------------------------------
  // Types
  // ---------------------------------------------------------------------

  /** A Rust type. `TOther` stands for every other kind of type (arrays,
      slices, trait objects, fn types, ...), known only by its
      token text. */
  datatype Ty =
    | TPath(segs: seq<Seg>)
    | TTuple(elems: seq<Ty>)
    | TRef(mutable: bool, elem: Ty)
    | TImplTrait(bounds: string)
    | TOther(text: string)

  /** A path segment: an identifier and its generic arguments. */
  datatype Seg = Seg(ident: string, args: PathArgs)

  datatype PathArgs =
    | NoArgs
    | Angle(generics: seq<GenericArg>)
    | Parenthesized(inputs: seq<Ty>, output: Option<Ty>)

  /** An angle-bracketed argument: a type, or anything else (a lifetime, a
      const, an associated-type binding) known by its token text. */
  datatype GenericArg = TypeArg(ty: Ty) | OtherArg(text: string)

  /** The unit type `()`. */
  const Unit: Ty := TTuple([])

  /** A one-segment path type without generic arguments, such as `u64`. */
  function Named(name: string): Ty {
    TPath([Seg(name, NoArgs)])
  }

  /** A path of plain identifiers as a type, as `quote!(#path)` produces it. */
  function PathTy(path: seq<string>): (t: Ty)
    ensures t.TPath? && |t.segs| == |path|
    ensures forall i :: 0 <= i < |path| ==> t.segs[i] == Seg(path[i], NoArgs)
  {
    TPath(seq(|path|, i requires 0 <= i < |path| => Seg(path[i], NoArgs)))
  }

  /** syn's `Path::is_ident`: exactly one segment, that identifier, no
      generic arguments. */
  predicate IsIdentPath(t: Ty, name: string) {
    t.TPath? && |t.segs| == 1 && t.segs[0] == Seg(name, NoArgs)
  }

  /** The token text of a type (`quote!(#ty).to_string()`), with canonical
      spacing: segments joined by `::`, arguments by `, `; a one-element
      tuple keeps its trailing comma. */
  function Render(t: Ty): string
    decreases t
  {
    match t
    case TPath(segs) =>
      Join(seq(|segs|, i requires 0 <= i < |segs| => RenderSeg(segs[i])), "::")
    case TTuple(elems) =>
      if |elems| == 1 then "(" + Render(elems[0]) + ",)"
      else "(" + Join(seq(|elems|, i requires 0 <= i < |elems| => Render(elems[i])), ", ") + ")"
    case TRef(m, e) => (if m then "&mut " else "&") + Render(e)
    case TImplTrait(b) => "impl " + b
    case TOther(text) => text
  }

  function RenderSeg(s: Seg): string
    decreases s
  {
    s.ident + RenderArgs(s.args)
  }

  function RenderArgs(a: PathArgs): string
    decreases a
  {
    match a
    case NoArgs => ""
    case Angle(gs) =>
      "<" + Join(seq(|gs|, i requires 0 <= i < |gs| => RenderGeneric(gs[i])), ", ") + ">"
    case Parenthesized(ins, out) =>
      "(" + Join(seq(|ins|, i requires 0 <= i < |ins| => Render(ins[i])), ", ") + ")" +
      (if out.Some? then " -> " + Render(out.value) else "")
  }

  function RenderGeneric(g: GenericArg): string
    decreases g
  {
    match g
    case TypeArg(ty) => Render(ty)
    case OtherArg(text) => text
  }

  // ---------------------------------------------------------------------
  // `use` trees
  // ---------------------------------------------------------------------

  /** syn's `UseTree`. */
  datatype UseTree =
    | UsePath(ident: string, tree: UseTree)
    | UseName(ident: string)
    | UseRename(ident: string, rename: string)
    | UseGlob
    | UseGroup(items: seq<UseTree>)

  // ---------------------------------------------------------------------
  // Expressions
  // ---------------------------------------------------------------------

  /** An expression. `EOther` is every other kind of expression, given by
      its sub-expressions in the order a syn visitor walks them. */
  datatype Expr =
    | ELitStr(value: string)
    | ELitOther(text: string)
    | EPath(path: seq<string>)
    | EStruct(spath: seq<string>, fields: seq<Expr>)
    | ECall(func: Expr, args: seq<Expr>)
    | EOther(children: seq<Expr>)

  // ---------------------------------------------------------------------
  // Attributes and their token streams
  // ---------------------------------------------------------------------

  datatype Delimiter = Parenthesis | Brace | Bracket | NoDelimiter

  /** A proc_macro2 token tree; a literal keeps its source text, quotes
      included. */
  datatype Token =
    | Ident(name: string)
    | Punct(ch: char)
    | Literal(text: string)
    | Group(delim: Delimiter, stream: seq<Token>)

  datatype Meta =
    | MetaPath
    | MetaList(tokens: seq<Token>)
    | MetaNameValue(value: Expr)

  /** `#[path ...]`: the attribute's path segments and its meta. */
  datatype Attribute = Attribute(path: seq<string>, meta: Meta)

  /** `attr.path().is_ident(name)` */
  predicate AttrIs(a: Attribute, name: string) {
    a.path == [name]
  }

  /** `#[contract(...)]` with a token list: the tokens, if `a` is one. */
  function ContractList(a: Attribute): (r: Option<seq<Token>>)
    ensures r.Some? <==> AttrIs(a, "contract") && a.meta.MetaList?
    ensures r.Some? ==> r.value == a.meta.tokens
  {
    if AttrIs(a, "contract") && a.meta.MetaList? then Some(a.meta.tokens) else None
  }

  /** The text of a token stream (`TokenStream::to_string`), tokens
      separated by single spaces. */
  function TokensText(ts: seq<Token>): string
    decreases ts
  {
    if ts == [] then ""
    else if |ts| == 1 then TokenText(ts[0])
    else TokenText(ts[0]) + " " + TokensText(ts[1..])
  }

  function TokenText(t: Token): string
    decreases t
  {
    match t
    case Ident(n) => n
    case Punct(c) => [c]
    case Literal(text) => text
    case Group(d, s) =>
      var inner := TokensText(s);
      match d
      case Parenthesis => "(" + inner + ")"
      case Brace => "{" + inner + "}"
      case Bracket => "[" + inner + "]"
      case NoDelimiter => inner
  }

  // ---------------------------------------------------------------------
  // Functions, impl blocks, items
  // ---------------------------------------------------------------------

  /** A function input: a `self` receiver (`reference` for `&self` and
      `&mut self`, `mutable` for `&mut self` and `mut self`) or a typed
      pattern. */
  datatype FnArg =
    | SelfArg(reference: bool, mutable: bool)
    | Typed(pat: Pat, ty: Ty)

  datatype Pat = PIdent(name: string) | POther

  datatype ReturnType = DefaultReturn | Returns(ty: Ty)

  /** A signature; `generics` counts its generic parameters (lifetimes,
      types and consts). */
  datatype Signature = Signature(
    ident: string,
    constness: bool,
    asyncness: bool,
    generics: nat,
    inputs: seq<FnArg>,
    output: ReturnType)

  /** A method of an impl block; `body` holds its statements. */
  datatype ImplItemFn = ImplItemFn(
    attrs: seq<Attribute>,
    isPub: bool,
    sig: Signature,
    body: seq<Expr>)

  datatype ImplItem = FnItem(fn: ImplItemFn) | OtherImplItem

  /** An impl block; `traitPath` is the implemented trait's path, if any. */
  datatype ItemImpl = ItemImpl(
    attrs: seq<Attribute>,
    traitPath: Option<seq<string>>,
    selfTy: Ty,
    items: seq<ImplItem>)

  /** A free function of the module. */
  datatype ItemFn = ItemFn(attrs: seq<Attribute>, ident: string, body: seq<Expr>)

  datatype Item =
    | UseItem(tree: UseTree)
    | StructItem(ident: string, isPub: bool)
    | ImplBlock(block: ItemImpl)
    | FnDecl(func: ItemFn)
    | OtherItem

  // ---------------------------------------------------------------------
  // Paths written as strings
  // ---------------------------------------------------------------------

  predicate IsIdentStart(c: char) { IsAsciiAlpha(c) || c == '_' }
  predicate IsIdentContinue(c: char) { IsAsciiAlpha(c) || IsAsciiDigit(c) || c == '_' }

  /** An (ASCII) Rust identifier. */
  predicate IsIdentifier(s: string) {
    |s| >= 1 && s != "_" && IsIdentStart(s[0]) &&
    forall k :: 0 <= k < |s| ==> IsIdentContinue(s[k])
  }

  /** `syn::parse_str::<syn::Path>` on a string: the `::`-separated
      identifiers, or None when some segment is not an identifier. */
  function ParsePath(s: string): (r: Option<seq<string>>)
    ensures r.Some? ==> |r.value| >= 1 && Join(r.value, "::") == s
    ensures r.Some? ==> forall k :: 0 <= k < |r.value| ==> IsIdentifier(r.value[k])
  {
    var segs := Split(s, "::");
    JoinSplit(s, "::");
    if forall k :: 0 <= k < |segs| ==> IsIdentifier(segs[k]) then Some(segs) else None
  }

  /** Conversely, identifiers joined by `::` parse back into exactly those
      identifiers, since no identifier contains a `:`. */
  lemma ParsePathOfJoin(ids: seq<string>)
    requires |ids| >= 1 && forall k :: 0 <= k < |ids| ==> IsIdentifier(ids[k])
    ensures ParsePath(Join(ids, "::")) == Some(ids)
  {
    forall i | 0 <= i < |ids| ensures ':' !in ids[i] {
      assert forall k :: 0 <= k < |ids[i]| ==> IsIdentContinue(ids[i][k]);
    }
    SplitJoin(ids, "::");
  }
}
