/** Type and topic resolution: short type names, as written in the contract
    module, are rewritten to the full paths of the imports that bring them
    into scope, and the results are collected into the type map the data
    driver looks its types up in. */
module Resolve {
  import opened Common
  import opened Syntax
  import opened Descriptors

  /** Short name (or alias) to full path. */
  type ImportMap = map<string, string>

  // ---------------------------------------------------------------------
  // Maps built by inserting pairs in order
  // ---------------------------------------------------------------------

  /** The map a sequence of `insert`s (or a `collect` into a hash map)
      builds: a later pair with the same key overwrites an earlier one. */
  function FromPairs(ps: seq<(string, string)>): map<string, string>
    decreases |ps|
  {
    if ps == [] then map[]
    else FromPairs(ps[..|ps| - 1])[ps[|ps| - 1].0 := ps[|ps| - 1].1]
  }

  /** No pair after position `i` has the key of pair `i`. */
  predicate LastOfKey(ps: seq<(string, string)>, i: int) {
    0 <= i < |ps| && forall j :: i < j < |ps| ==> ps[j].0 != ps[i].0
  }

  /** The keys are exactly the pairs' keys. */
  lemma {:induction false} FromPairsKeys(ps: seq<(string, string)>)
    ensures FromPairs(ps).Keys == set i | 0 <= i < |ps| :: ps[i].0
    decreases |ps|
  {
    if ps != [] {
      var init := ps[..|ps| - 1];
      var last := ps[|ps| - 1];
      FromPairsKeys(init);
      forall k | k in FromPairs(ps).Keys ensures k in set i | 0 <= i < |ps| :: ps[i].0 {
        if k != last.0 {
          var i :| 0 <= i < |init| && init[i].0 == k;
          assert ps[i].0 == k;
        }
      }
      forall k | k in set i | 0 <= i < |ps| :: ps[i].0 ensures k in FromPairs(ps).Keys {
        var i :| 0 <= i < |ps| && ps[i].0 == k;
        if i < |init| { assert init[i].0 == k; }
      }
    }
  }

  /** Each key maps to the value of its last pair. */
  lemma {:induction false} FromPairsLast(ps: seq<(string, string)>)
    ensures forall i :: LastOfKey(ps, i) ==> ps[i].0 in FromPairs(ps) && FromPairs(ps)[ps[i].0] == ps[i].1
    decreases |ps|
  {
    if ps != [] {
      var init := ps[..|ps| - 1];
      FromPairsLast(init);
      forall i | LastOfKey(ps, i) ensures ps[i].0 in FromPairs(ps) && FromPairs(ps)[ps[i].0] == ps[i].1 {
        if i < |init| {
          assert init[i] == ps[i];
          assert LastOfKey(init, i);
        }
      }
    }
  }

  /** Two more insertions. */
  lemma FromPairsSnoc2(ps: seq<(string, string)>, a: (string, string), b: (string, string))
    ensures FromPairs(ps + [a, b]) == FromPairs(ps)[a.0 := a.1][b.0 := b.1]
  {
    assert (ps + [a, b])[..|ps| + 1] == ps + [a];
    assert (ps + [a])[..|ps|] == ps;
  }

  // ---------------------------------------------------------------------
  // build_import_map
  // ---------------------------------------------------------------------

  function ImportPairs(imports: seq<ImportInfo>): (ps: seq<(string, string)>)
    ensures |ps| == |imports| && forall i :: 0 <= i < |imports| ==> ps[i] == (imports[i].name, imports[i].path)
  {
    seq(|imports|, i requires 0 <= i < |imports| => (imports[i].name, imports[i].path))
  }

  /** `build_import_map`: each import's name to its path. */
  function BuildImportMap(imports: seq<ImportInfo>): ImportMap {
    FromPairs(ImportPairs(imports))
  }

  /** The map's keys are the imported names, and a name imported more than
      once maps to the path of its last import. */
  lemma BuildImportMapSpec(imports: seq<ImportInfo>)
    ensures forall n :: n in BuildImportMap(imports) <==> exists i :: 0 <= i < |imports| && imports[i].name == n
    ensures forall i :: 0 <= i < |imports| && (forall j :: i < j < |imports| ==> imports[j].name != imports[i].name) ==>
              BuildImportMap(imports)[imports[i].name] == imports[i].path
  {
    var ps := ImportPairs(imports);
    FromPairsKeys(ps);
    FromPairsLast(ps);
    forall n ensures n in BuildImportMap(imports) <==> exists i :: 0 <= i < |imports| && imports[i].name == n {
      if n in BuildImportMap(imports) {
        var i :| 0 <= i < |ps| && ps[i].0 == n;
        assert imports[i].name == n;
      }
      if exists i :: 0 <= i < |imports| && imports[i].name == n {
        var i :| 0 <= i < |imports| && imports[i].name == n;
        assert ps[i].0 == n;
      }
    }
    forall i | 0 <= i < |imports| && (forall j :: i < j < |imports| ==> imports[j].name != imports[i].name)
      ensures BuildImportMap(imports)[imports[i].name] == imports[i].path
    {
      assert LastOfKey(ps, i);
    }
  }

  // ---------------------------------------------------------------------
  // resolve_syn_type, resolve_type_path, format_segment, format_generic_args
  // ---------------------------------------------------------------------

  /** The resolved text of a type. `keepComma` says whether a one-element
      tuple keeps its trailing comma: `resolve_syn_type` as written drops it;
      the corrected resolution keeps it. */
  function ResolveSynWith(t: Ty, m: ImportMap, keepComma: bool): string
    decreases t
  {
    match t
    case TPath(segs) => ResolveTypePathWith(t, m, keepComma)
    case TTuple(elems) =>
      var resolved := seq(|elems|, i requires 0 <= i < |elems| => ResolveSynWith(elems[i], m, keepComma));
      if keepComma && |elems| == 1 then "(" + resolved[0] + ",)"
      else "(" + Join(resolved, ", ") + ")"
    case TRef(mutable, elem) =>
      (if mutable then "&mut " else "&") + ResolveSynWith(elem, m, keepComma)
    case _ => Render(t)
  }

  /** `resolve_type_path`: an imported first segment is replaced by its
      full path; the segments after it are formatted as they are (the
      first segment's own generic arguments are kept only when it is the
      only segment). */
  function ResolveTypePathWith(t: Ty, m: ImportMap, keepComma: bool): string
    requires t.TPath?
    decreases t, 0
  {
    var segs := t.segs;
    if segs == [] then Render(t)
    else if segs[0].ident in m then
      var rest := seq(|segs| - 1, i requires 0 <= i < |segs| - 1 => FormatSegmentWith(segs[i + 1], m, keepComma));
      if rest == [] then m[segs[0].ident] + FormatGenericArgsWith(segs[0].args, m, keepComma)
      else m[segs[0].ident] + "::" + Join(rest, "::")
    else
      Join(seq(|segs| , i requires 0 <= i < |segs| => FormatSegmentWith(segs[i], m, keepComma)), "::")
  }

  function FormatSegmentWith(s: Seg, m: ImportMap, keepComma: bool): string
    decreases s
  {
    s.ident + FormatGenericArgsWith(s.args, m, keepComma)
  }

  function FormatGenericArgsWith(a: PathArgs, m: ImportMap, keepComma: bool): string
    decreases a
  {
    match a
    case NoArgs => ""
    case Angle(gs) =>
      "<" + Join(seq(|gs|, i requires 0 <= i < |gs| => FormatGenericWith(gs[i], m, keepComma)), ", ") + ">"
    case Parenthesized(ins, out) =>
      "(" + Join(seq(|ins|, i requires 0 <= i < |ins| => ResolveSynWith(ins[i], m, keepComma)), ", ") + ")" +
      (if out.Some? then " -> " + ResolveSynWith(out.value, m, keepComma) else "")
  }

  function FormatGenericWith(g: GenericArg, m: ImportMap, keepComma: bool): string
    decreases g
  {
    match g
    case TypeArg(ty) => ResolveSynWith(ty, m, keepComma)
    case OtherArg(text) => text
  }

  /** `resolve_syn_type` as written. */
  function ResolveSynAsWritten(t: Ty, m: ImportMap): string {
    ResolveSynWith(t, m, false)
  }

  /** `resolve_syn_type` with one-element tuples rendered as tuples. */
  function ResolveSyn(t: Ty, m: ImportMap): string {
    ResolveSynWith(t, m, true)
  }

  /** `resolve_type`: the unit type stays `()`; every other type is
      resolved. (The token streams the macro resolves always parse as a
      type, so the unparsed fallback never applies.) */
  function ResolveType(t: Ty, m: ImportMap): (r: string)
    ensures Render(t) == "()" ==> r == "()"
    ensures Render(t) != "()" ==> r == Render(Qualify(t, m))
  {
    if Render(t) == "()" then "()"
    else
      ResolveIsQualifiedRender(t, m);
      ResolveSyn(t, m)
  }

  // ---------------------------------------------------------------------
  // Resolution is rendering after qualification
  // ---------------------------------------------------------------------

  /** The type with every imported head segment replaced by its import's
      full path (written as one segment). A replaced head keeps its generic
      arguments only when it is the whole path, as `resolve_type_path`
      does. */
  function Qualify(t: Ty, m: ImportMap): Ty
    decreases t
  {
    match t
    case TPath(segs) =>
      if segs == [] then t
      else if segs[0].ident in m then
        if |segs| == 1 then TPath([Seg(m[segs[0].ident], QualifyArgs(segs[0].args, m))])
        else TPath([Seg(m[segs[0].ident], NoArgs)] +
                   seq(|segs| - 1, i requires 0 <= i < |segs| - 1 => QualifySeg(segs[i + 1], m)))
      else TPath(seq(|segs|, i requires 0 <= i < |segs| => QualifySeg(segs[i], m)))
    case TTuple(elems) => TTuple(seq(|elems|, i requires 0 <= i < |elems| => Qualify(elems[i], m)))
    case TRef(mutable, elem) => TRef(mutable, Qualify(elem, m))
    case _ => t
  }

  function QualifySeg(s: Seg, m: ImportMap): Seg
    decreases s
  {
    Seg(s.ident, QualifyArgs(s.args, m))
  }

  function QualifyArgs(a: PathArgs, m: ImportMap): PathArgs
    decreases a
  {
    match a
    case NoArgs => NoArgs
    case Angle(gs) => Angle(seq(|gs|, i requires 0 <= i < |gs| => QualifyGeneric(gs[i], m)))
    case Parenthesized(ins, out) =>
      Parenthesized(seq(|ins|, i requires 0 <= i < |ins| => Qualify(ins[i], m)),
                    if out.Some? then Some(Qualify(out.value, m)) else None)
  }

  function QualifyGeneric(g: GenericArg, m: ImportMap): GenericArg
    decreases g
  {
    match g
    case TypeArg(ty) => TypeArg(Qualify(ty, m))
    case OtherArg(text) => g
  }

  lemma JoinCons(a: string, rest: seq<string>, sep: string)
    requires rest != []
    ensures Join([a] + rest, sep) == a + sep + Join(rest, sep)
  {
    assert ([a] + rest)[1..] == rest;
  }

  /** The resolved text of a type is the token text of its qualified form:
      generic arguments, tuple elements, reference targets and
      parenthesized arguments are resolved recursively, in order, and
      nothing but the imported head segments changes. */
  lemma {:induction false} ResolveIsQualifiedRender(t: Ty, m: ImportMap)
    ensures ResolveSyn(t, m) == Render(Qualify(t, m))
    decreases t
  {
    match t
    case TPath(segs) =>
      ResolvePathIsQualifiedRender(t, m);
    case TTuple(elems) =>
      forall i | 0 <= i < |elems| ensures ResolveSynWith(elems[i], m, true) == Render(Qualify(elems[i], m)) {
        ResolveIsQualifiedRender(elems[i], m);
      }
      var q := Qualify(t, m).elems;
      assert seq(|q|, i requires 0 <= i < |q| => Render(q[i])) ==
             seq(|elems|, i requires 0 <= i < |elems| => ResolveSynWith(elems[i], m, true));
    case TRef(mutable, elem) =>
      ResolveIsQualifiedRender(elem, m);
    case TImplTrait(_) =>
    case TOther(_) =>
  }

  lemma {:induction false} ResolvePathIsQualifiedRender(t: Ty, m: ImportMap)
    requires t.TPath?
    ensures ResolveTypePathWith(t, m, true) == Render(Qualify(t, m))
    decreases t, 0
  {
    var segs := t.segs;
    if segs != [] {
      forall i | 0 <= i < |segs| ensures FormatSegmentWith(segs[i], m, true) == RenderSeg(QualifySeg(segs[i], m)) {
        FormatSegmentIsRender(segs[i], m);
      }
      var q := Qualify(t, m).segs;
      var rendered := seq(|q|, i requires 0 <= i < |q| => RenderSeg(q[i]));
      assert Render(Qualify(t, m)) == Join(rendered, "::");
      if segs[0].ident in m {
        var h := m[segs[0].ident];
        var rest := seq(|segs| - 1, i requires 0 <= i < |segs| - 1 => FormatSegmentWith(segs[i + 1], m, true));
        if |segs| == 1 {
          FormatArgsIsRender(segs[0].args, m);
          assert ResolveTypePathWith(t, m, true) == h + FormatGenericArgsWith(segs[0].args, m, true);
          assert rendered == [h + RenderArgs(QualifyArgs(segs[0].args, m))];
        } else {
          assert ResolveTypePathWith(t, m, true) == h + "::" + Join(rest, "::");
          assert q[0] == Seg(h, NoArgs);
          assert RenderSeg(q[0]) == h + "";
          assert h + "" == h;
          forall i | 0 <= i < |rest| ensures rendered[i + 1] == rest[i] {
            assert q[i + 1] == QualifySeg(segs[i + 1], m);
          }
          assert rendered == [h] + rest;
          JoinCons(h, rest, "::");
        }
      } else {
        assert rendered == seq(|segs|, i requires 0 <= i < |segs| => FormatSegmentWith(segs[i], m, true));
      }
    }
  }

  lemma {:induction false} FormatSegmentIsRender(s: Seg, m: ImportMap)
    ensures FormatSegmentWith(s, m, true) == RenderSeg(QualifySeg(s, m))
    decreases s
  {
    FormatArgsIsRender(s.args, m);
  }

  lemma {:induction false} FormatArgsIsRender(a: PathArgs, m: ImportMap)
    ensures FormatGenericArgsWith(a, m, true) == RenderArgs(QualifyArgs(a, m))
    decreases a
  {
    match a
    case NoArgs =>
    case Angle(gs) =>
      forall i | 0 <= i < |gs| ensures FormatGenericWith(gs[i], m, true) == RenderGeneric(QualifyGeneric(gs[i], m)) {
        match gs[i]
        case TypeArg(ty) => ResolveIsQualifiedRender(ty, m);
        case OtherArg(_) =>
      }
      var q := QualifyArgs(a, m).generics;
      assert seq(|q|, i requires 0 <= i < |q| => RenderGeneric(q[i])) ==
             seq(|gs|, i requires 0 <= i < |gs| => FormatGenericWith(gs[i], m, true));
    case Parenthesized(ins, out) =>
      forall i | 0 <= i < |ins| ensures ResolveSynWith(ins[i], m, true) == Render(Qualify(ins[i], m)) {
        ResolveIsQualifiedRender(ins[i], m);
      }
      var q := QualifyArgs(a, m).inputs;
      assert seq(|q|, i requires 0 <= i < |q| => Render(q[i])) ==
             seq(|ins|, i requires 0 <= i < |ins| => ResolveSynWith(ins[i], m, true));
      if out.Some? {
        ResolveIsQualifiedRender(out.value, m);
      }
  }

  /** No head segment anywhere in the type is imported. */
  predicate Unmapped(t: Ty, m: ImportMap)
    decreases t
  {
    match t
    case TPath(segs) =>
      (segs == [] || segs[0].ident !in m) && forall i :: 0 <= i < |segs| ==> UnmappedArgs(segs[i].args, m)
    case TTuple(elems) => forall i :: 0 <= i < |elems| ==> Unmapped(elems[i], m)
    case TRef(_, elem) => Unmapped(elem, m)
    case _ => true
  }

  predicate UnmappedArgs(a: PathArgs, m: ImportMap)
    decreases a
  {
    match a
    case NoArgs => true
    case Angle(gs) => forall i :: 0 <= i < |gs| ==> (gs[i].TypeArg? ==> Unmapped(gs[i].ty, m))
    case Parenthesized(ins, out) =>
      (forall i :: 0 <= i < |ins| ==> Unmapped(ins[i], m)) && (out.Some? ==> Unmapped(out.value, m))
  }

  /** Qualification leaves a type that names no import unchanged. */
  lemma {:induction false} QualifyUnmapped(t: Ty, m: ImportMap)
    requires Unmapped(t, m)
    ensures Qualify(t, m) == t
    decreases t
  {
    match t
    case TPath(segs) =>
      forall i | 0 <= i < |segs| ensures QualifySeg(segs[i], m) == segs[i] {
        QualifyArgsUnmapped(segs[i].args, m);
      }
    case TTuple(elems) =>
      forall i | 0 <= i < |elems| ensures Qualify(elems[i], m) == elems[i] {
        QualifyUnmapped(elems[i], m);
      }
    case TRef(_, elem) => QualifyUnmapped(elem, m);
    case TImplTrait(_) =>
    case TOther(_) =>
  }

  lemma {:induction false} QualifyArgsUnmapped(a: PathArgs, m: ImportMap)
    requires UnmappedArgs(a, m)
    ensures QualifyArgs(a, m) == a
    decreases a
  {
    match a
    case NoArgs =>
    case Angle(gs) =>
      forall i | 0 <= i < |gs| ensures QualifyGeneric(gs[i], m) == gs[i] {
        if gs[i].TypeArg? { QualifyUnmapped(gs[i].ty, m); }
      }
    case Parenthesized(ins, out) =>
      forall i | 0 <= i < |ins| ensures Qualify(ins[i], m) == ins[i] {
        QualifyUnmapped(ins[i], m);
      }
      if out.Some? { QualifyUnmapped(out.value, m); }
  }

  /** A type that names no import resolves to its own token text: in
      particular every type resolves to itself against an empty map, and
      `()` stays `()`. */
  lemma ResolveUnmapped(t: Ty, m: ImportMap)
    requires Unmapped(t, m)
    ensures ResolveSyn(t, m) == Render(t)
    ensures ResolveType(t, m) == Render(t)
  {
    ResolveIsQualifiedRender(t, m);
    QualifyUnmapped(t, m);
  }

  /** An imported name, alias or not, resolves to the path of its last
      import; with generic arguments those follow the path, themselves
      resolved. */
  lemma ResolveImportedName(imports: seq<ImportInfo>, i: nat, args: PathArgs)
    requires i < |imports| && forall j :: i < j < |imports| ==> imports[j].name != imports[i].name
    ensures ResolveSyn(TPath([Seg(imports[i].name, args)]), BuildImportMap(imports)) ==
            imports[i].path + RenderArgs(QualifyArgs(args, BuildImportMap(imports)))
  {
    var m := BuildImportMap(imports);
    BuildImportMapSpec(imports);
    assert imports[i].name in m.Keys;
    assert m[imports[i].name] == imports[i].path;
    FormatArgsIsRender(args, m);
    var t := TPath([Seg(imports[i].name, args)]);
    assert ResolveTypePathWith(t, m, true) == imports[i].path + FormatGenericArgsWith(args, m, true);
  }

  /** A multi-segment path whose head is imported: the head becomes the
      import's path and the remaining segments follow verbatim. */
  lemma ResolveMultiSegment(segs: seq<Seg>, m: ImportMap)
    requires |segs| >= 2 && segs[0].ident in m
    requires forall i :: 1 <= i < |segs| ==> UnmappedArgs(segs[i].args, m)
    ensures ResolveSyn(TPath(segs), m) == m[segs[0].ident] + "::" + Render(TPath(segs[1..]))
  {
    var rest := seq(|segs| - 1, i requires 0 <= i < |segs| - 1 => FormatSegmentWith(segs[i + 1], m, true));
    var tail := segs[1..];
    forall i | 0 <= i < |tail| ensures rest[i] == RenderSeg(tail[i]) {
      FormatSegmentIsRender(tail[i], m);
      QualifyArgsUnmapped(tail[i].args, m);
    }
    assert rest == seq(|tail|, i requires 0 <= i < |tail| => RenderSeg(tail[i]));
    assert ResolveTypePathWith(TPath(segs), m, true) == m[segs[0].ident] + "::" + Join(rest, "::");
  }

  /** The one-element tuple `(u64,)`: `resolve_syn_type` as written renders
      it `(u64)`, which reads back as the parenthesized type `u64`, not as a
      tuple; the corrected resolution keeps the comma. */
  lemma OneTupleLosesComma()
    ensures ResolveSynAsWritten(TTuple([Named("u64")]), map[]) == "(u64)"
    ensures ResolveSyn(TTuple([Named("u64")]), map[]) == "(u64,)" == Render(TTuple([Named("u64")]))
  {
    var u := Named("u64");
    var segs := [Seg("u64", NoArgs)];
    assert FormatSegmentWith(segs[0], map[], false) == "u64";
    assert FormatSegmentWith(segs[0], map[], true) == "u64";
    assert seq(|segs|, i requires 0 <= i < |segs| => FormatSegmentWith(segs[i], map[], false)) == ["u64"];
    assert seq(|segs|, i requires 0 <= i < |segs| => FormatSegmentWith(segs[i], map[], true)) == ["u64"];
    assert seq(|segs|, i requires 0 <= i < |segs| => RenderSeg(segs[i])) == ["u64"];
    assert ResolveSynWith(u, map[], false) == "u64";
    assert ResolveSynWith(u, map[], true) == "u64";
    assert Render(u) == "u64";
    var es := [u];
    assert seq(|es|, i requires 0 <= i < |es| => ResolveSynWith(es[i], map[], false)) == ["u64"];
  }

  // ---------------------------------------------------------------------
  // resolve_path_string
  // ---------------------------------------------------------------------

  /** `resolve_path_string`: the part before the first `::` is replaced by
      its import's path when it is imported. */
  function ResolvePathString(path: string, m: ImportMap): string {
    var segs := Split(path, "::");
    if segs[0] in m then
      (if |segs| == 1 then m[segs[0]] else m[segs[0]] + "::" + Join(segs[1..], "::"))
    else path
  }

  /** The part of a path before its first `::`. */
  function Head(path: string): string {
    Split(path, "::")[0]
  }

  /** An unimported head leaves the path unchanged; an imported head is
      replaced by its import's path and the rest of the string, `::`
      included, is kept verbatim. */
  lemma ResolvePathStringSpec(path: string, m: ImportMap)
    ensures Head(path) !in m ==> ResolvePathString(path, m) == path
    ensures Head(path) in m ==>
              |Head(path)| <= |path| && ResolvePathString(path, m) == m[Head(path)] + path[|Head(path)|..]
  {
    var segs := Split(path, "::");
    JoinSplit(path, "::");
    if |segs| > 1 {
      JoinCons(segs[0], segs[1..], "::");
      assert [segs[0]] + segs[1..] == segs;
    }
  }

  // ---------------------------------------------------------------------
  // build_type_map
  // ---------------------------------------------------------------------

  /** The two entries one function contributes: its input type and its
      output type, each keyed by its token text. */
  function FunctionEntries(f: FunctionInfo, m: ImportMap): seq<(string, string)> {
    [(Render(f.inputType), ResolveType(f.inputType, m)), (Render(f.outputType), ResolveType(f.outputType, m))]
  }

  /** The two entries one event contributes: its data type, keyed by its
      token text, and its topic, keyed by itself. */
  function EventEntries(e: EventInfo, m: ImportMap): seq<(string, string)> {
    [(Render(e.dataType), ResolveType(e.dataType, m)), (e.topic, ResolvePathString(e.topic, m))]
  }

  /** The insertions of the loop over the functions, in order. */
  function FunctionsEntries(fs: seq<FunctionInfo>, m: ImportMap): seq<(string, string)>
    decreases |fs|
  {
    if fs == [] then [] else FunctionsEntries(fs[..|fs| - 1], m) + FunctionEntries(fs[|fs| - 1], m)
  }

  /** The insertions of the loop over the events, in order. */
  function EventsEntries(es: seq<EventInfo>, m: ImportMap): seq<(string, string)>
    decreases |es|
  {
    if es == [] then [] else EventsEntries(es[..|es| - 1], m) + EventEntries(es[|es| - 1], m)
  }

  /** What `build_type_map` returns. */
  function TypeMapSpec(imports: seq<ImportInfo>, functions: seq<FunctionInfo>, events: seq<EventInfo>): map<string, string> {
    var m := BuildImportMap(imports);
    FromPairs(FunctionsEntries(functions, m) + EventsEntries(events, m))
  }

  /** `build_type_map`: the insertion loops. */
  method BuildTypeMap(imports: seq<ImportInfo>, functions: seq<FunctionInfo>, events: seq<EventInfo>)
    returns (typeMap: map<string, string>)
    ensures typeMap == TypeMapSpec(imports, functions, events)
  {
    var importMap := BuildImportMap(imports);
    typeMap := map[];
    var k := 0;
    while k < |functions|
      invariant 0 <= k <= |functions|
      invariant typeMap == FromPairs(FunctionsEntries(functions[..k], importMap))
    {
      var func := functions[k];
      assert functions[..k + 1][..k] == functions[..k];
      FromPairsSnoc2(FunctionsEntries(functions[..k], importMap),
                     (Render(func.inputType), ResolveType(func.inputType, importMap)),
                     (Render(func.outputType), ResolveType(func.outputType, importMap)));
      typeMap := typeMap[Render(func.inputType) := ResolveType(func.inputType, importMap)];
      typeMap := typeMap[Render(func.outputType) := ResolveType(func.outputType, importMap)];
      k := k + 1;
    }
    assert functions[..k] == functions;
    ghost var before := FunctionsEntries(functions, importMap);
    assert events[..0] == [];
    assert before + EventsEntries(events[..0], importMap) == before;
    var j := 0;
    while j < |events|
      invariant 0 <= j <= |events|
      invariant typeMap == FromPairs(before + EventsEntries(events[..j], importMap))
    {
      var event := events[j];
      assert events[..j + 1][..j] == events[..j];
      var a := (Render(event.dataType), ResolveType(event.dataType, importMap));
      var b := (event.topic, ResolvePathString(event.topic, importMap));
      assert before + EventsEntries(events[..j + 1], importMap) == (before + EventsEntries(events[..j], importMap)) + [a, b];
      FromPairsSnoc2(before + EventsEntries(events[..j], importMap), a, b);
      typeMap := typeMap[Render(event.dataType) := ResolveType(event.dataType, importMap)];
      typeMap := typeMap[event.topic := ResolvePathString(event.topic, importMap)];
      j := j + 1;
    }
    assert events[..j] == events;
  }

  /** The keys of a sequence of pairs. */
  function KeysOf(ps: seq<(string, string)>): set<string> {
    set i | 0 <= i < |ps| :: ps[i].0
  }

  lemma KeysOfAppend(a: seq<(string, string)>, b: seq<(string, string)>)
    ensures KeysOf(a + b) == KeysOf(a) + KeysOf(b)
  {
    forall k | k in KeysOf(a + b) ensures k in KeysOf(a) + KeysOf(b) {
      var i :| 0 <= i < |a + b| && (a + b)[i].0 == k;
      if i >= |a| { assert b[i - |a|].0 == k; } else { assert a[i].0 == k; }
    }
    forall k | k in KeysOf(a) ensures k in KeysOf(a + b) {
      var i :| 0 <= i < |a| && a[i].0 == k;
      assert (a + b)[i].0 == k;
    }
    forall k | k in KeysOf(b) ensures k in KeysOf(a + b) {
      var i :| 0 <= i < |b| && b[i].0 == k;
      assert (a + b)[|a| + i].0 == k;
    }
  }

  lemma KeysOfPair(a: (string, string), b: (string, string))
    ensures KeysOf([a, b]) == {a.0, b.0}
  {
    var ps := [a, b];
    assert ps[0].0 == a.0 && ps[1].0 == b.0;
    forall k | k in KeysOf(ps) ensures k in {a.0, b.0} {
      var i :| 0 <= i < 2 && ps[i].0 == k;
    }
  }

  /** The keys the function loop inserts. */
  function FunctionKeys(fs: seq<FunctionInfo>): set<string> {
    (set f | f in fs :: Render(f.inputType)) + (set f | f in fs :: Render(f.outputType))
  }

  /** The keys the event loop inserts. */
  function EventKeys(es: seq<EventInfo>): set<string> {
    (set e | e in es :: Render(e.dataType)) + (set e | e in es :: e.topic)
  }

  lemma FunctionKeysSnoc(fs: seq<FunctionInfo>, f: FunctionInfo)
    ensures FunctionKeys(fs + [f]) == FunctionKeys(fs) + {Render(f.inputType), Render(f.outputType)}
  {
    var gs := fs + [f];
    assert forall g :: g in gs <==> g in fs || g == f;
    assert (set g | g in gs :: Render(g.inputType)) == (set g | g in fs :: Render(g.inputType)) + {Render(f.inputType)};
    assert (set g | g in gs :: Render(g.outputType)) == (set g | g in fs :: Render(g.outputType)) + {Render(f.outputType)};
  }

  lemma EventKeysSnoc(es: seq<EventInfo>, e: EventInfo)
    ensures EventKeys(es + [e]) == EventKeys(es) + {Render(e.dataType), e.topic}
  {
    var gs := es + [e];
    assert forall g :: g in gs <==> g in es || g == e;
    assert (set g | g in gs :: Render(g.dataType)) == (set g | g in es :: Render(g.dataType)) + {Render(e.dataType)};
    assert (set g | g in gs :: g.topic) == (set g | g in es :: g.topic) + {e.topic};
  }

  lemma {:induction false} FunctionsEntriesKeys(fs: seq<FunctionInfo>, m: ImportMap)
    ensures KeysOf(FunctionsEntries(fs, m)) == FunctionKeys(fs)
    decreases |fs|
  {
    if fs != [] {
      var init := fs[..|fs| - 1];
      var last := fs[|fs| - 1];
      FunctionsEntriesKeys(init, m);
      var pair := FunctionEntries(last, m);
      KeysOfAppend(FunctionsEntries(init, m), pair);
      KeysOfPair(pair[0], pair[1]);
      assert pair == [pair[0], pair[1]];
      assert fs == init + [last];
      FunctionKeysSnoc(init, last);
    }
  }

  lemma {:induction false} EventsEntriesKeys(es: seq<EventInfo>, m: ImportMap)
    ensures KeysOf(EventsEntries(es, m)) == EventKeys(es)
    decreases |es|
  {
    if es != [] {
      var init := es[..|es| - 1];
      var last := es[|es| - 1];
      EventsEntriesKeys(init, m);
      var pair := EventEntries(last, m);
      KeysOfAppend(EventsEntries(init, m), pair);
      KeysOfPair(pair[0], pair[1]);
      assert pair == [pair[0], pair[1]];
      assert es == init + [last];
      EventKeysSnoc(init, last);
    }
  }

  /** The type map has a key for every function's input and output text,
      every event's data type text and every topic, and no other key. */
  lemma TypeMapKeys(imports: seq<ImportInfo>, functions: seq<FunctionInfo>, events: seq<EventInfo>)
    ensures TypeMapSpec(imports, functions, events).Keys == FunctionKeys(functions) + EventKeys(events)
  {
    var m := BuildImportMap(imports);
    var ps := FunctionsEntries(functions, m) + EventsEntries(events, m);
    FromPairsKeys(ps);
    KeysOfAppend(FunctionsEntries(functions, m), EventsEntries(events, m));
    FunctionsEntriesKeys(functions, m);
    EventsEntriesKeys(events, m);
  }
}
