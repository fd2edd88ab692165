/** Flattening of `use` trees into (short name, full path) imports, with the
    two flags the macro rejects later: a glob was seen, a path relative to
    `self`, `super` or `crate` was seen. */
module ImportParse {
  import opened Common
  import opened Syntax
  import opened Descriptors

  /** `prefix::ident`, or `ident` alone at the root of the tree. */
  function Qualify(prefix: string, ident: string): string {
    if prefix == "" then ident else prefix + "::" + ident
  }

  const NoImports := ImportExtraction([], false, false)

  /** Combines the extractions of a group's items: imports concatenated in
      item order, flags OR-ed. */
  function MergeAll(es: seq<ImportExtraction>): ImportExtraction
    decreases |es|
  {
    if es == [] then NoImports
    else
      var rest := MergeAll(es[1..]);
      ImportExtraction(es[0].imports + rest.imports,
                       es[0].hasGlob || rest.hasGlob,
                       es[0].hasRelative || rest.hasRelative)
  }

  /** The imports of `tree` under the path `prefix` built so far. */
  function ExtractImportsFromTree(tree: UseTree, prefix: string): ImportExtraction
    decreases tree
  {
    match tree
    case UsePath(ident, sub) =>
      var isRelative := prefix == "" && IsRelativePathKeyword(ident);
      var e := ExtractImportsFromTree(sub, Qualify(prefix, ident));
      e.(hasRelative := e.hasRelative || isRelative)
    case UseName(ident) =>
      ImportExtraction([ImportInfo(ident, Qualify(prefix, ident))], false, false)
    case UseRename(ident, rename) =>
      ImportExtraction([ImportInfo(rename, Qualify(prefix, ident))], false, false)
    case UseGlob =>
      ImportExtraction([], true, false)
    case UseGroup(items) =>
      MergeAll(seq(|items|, i requires 0 <= i < |items| => ExtractImportsFromTree(items[i], prefix)))
  }

  /** The imports of one `use` item. */
  function ImportsFromUse(tree: UseTree): ImportExtraction {
    ExtractImportsFromTree(tree, "")
  }

  // ---------------------------------------------------------------------
  // Reference notions
  // ---------------------------------------------------------------------

  /** `seg1::seg2::...::leaf` as a tree. */
  function PathTree(segs: seq<string>, leaf: UseTree): UseTree
    decreases |segs|
  {
    if segs == [] then leaf else UsePath(segs[0], PathTree(segs[1..], leaf))
  }

  /** Every identifier on a path of the tree is non-empty. */
  predicate WellFormed(t: UseTree)
    decreases t
  {
    match t
    case UsePath(ident, sub) => ident != "" && WellFormed(sub)
    case UseName(ident) => true
    case UseRename(ident, rename) => true
    case UseGlob => true
    case UseGroup(items) => forall i :: 0 <= i < |items| ==> WellFormed(items[i])
  }

  function Sum(xs: seq<nat>): nat
    decreases |xs|
  {
    if xs == [] then 0 else xs[0] + Sum(xs[1..])
  }

  /** The number of `Name` and `Rename` leaves. */
  function Leaves(t: UseTree): nat
    decreases t
  {
    match t
    case UsePath(_, sub) => Leaves(sub)
    case UseName(_) => 1
    case UseRename(_, _) => 1
    case UseGlob => 0
    case UseGroup(items) => Sum(seq(|items|, i requires 0 <= i < |items| => Leaves(items[i])))
  }

  /** Whether the tree holds a glob anywhere. */
  predicate HasGlobLeaf(t: UseTree)
    decreases t
  {
    match t
    case UsePath(_, sub) => HasGlobLeaf(sub)
    case UseName(_) => false
    case UseRename(_, _) => false
    case UseGlob => true
    case UseGroup(items) => exists i :: 0 <= i < |items| && HasGlobLeaf(items[i])
  }

  /** Whether some path that starts the whole `use` item (looking through
      groups at the root) begins with `self`, `super` or `crate`. */
  predicate StartsRelative(t: UseTree)
    decreases t
  {
    match t
    case UsePath(ident, _) => IsRelativePathKeyword(ident)
    case UseName(_) => false
    case UseRename(_, _) => false
    case UseGlob => false
    case UseGroup(items) => exists i :: 0 <= i < |items| && StartsRelative(items[i])
  }

  // ---------------------------------------------------------------------
  // Properties
  // ---------------------------------------------------------------------

  lemma {:induction false} MergeAllOf(es: seq<ImportExtraction>)
    ensures MergeAll(es).imports == Flatten(seq(|es|, i requires 0 <= i < |es| => es[i].imports))
    ensures MergeAll(es).hasGlob <==> exists i :: 0 <= i < |es| && es[i].hasGlob
    ensures MergeAll(es).hasRelative <==> exists i :: 0 <= i < |es| && es[i].hasRelative
    decreases |es|
  {
    if es != [] {
      MergeAllOf(es[1..]);
      var f := seq(|es|, i requires 0 <= i < |es| => es[i].imports);
      assert f[1..] == seq(|es[1..]|, i requires 0 <= i < |es[1..]| => es[1..][i].imports);
      assert forall i :: 1 <= i < |es| ==> es[i] == es[1..][i - 1];
    }
  }

  /** Group items share the group's prefix; the result is their imports
      concatenated in item order, with both flags OR-ed. A glob item thus
      does not suppress its siblings' imports. */
  lemma GroupIsConcatenation(items: seq<UseTree>, prefix: string)
    ensures ExtractImportsFromTree(UseGroup(items), prefix).imports ==
            Flatten(seq(|items|, i requires 0 <= i < |items| => ExtractImportsFromTree(items[i], prefix).imports))
    ensures ExtractImportsFromTree(UseGroup(items), prefix).hasGlob <==>
            exists i :: 0 <= i < |items| && ExtractImportsFromTree(items[i], prefix).hasGlob
    ensures ExtractImportsFromTree(UseGroup(items), prefix).hasRelative <==>
            exists i :: 0 <= i < |items| && ExtractImportsFromTree(items[i], prefix).hasRelative
  {
    var es := seq(|items|, i requires 0 <= i < |items| => ExtractImportsFromTree(items[i], prefix));
    MergeAllOf(es);
    assert forall i :: 0 <= i < |items| ==> es[i] == ExtractImportsFromTree(items[i], prefix);
    assert seq(|es|, i requires 0 <= i < |es| => es[i].imports) ==
           seq(|items|, i requires 0 <= i < |items| => ExtractImportsFromTree(items[i], prefix).imports);
  }

  /** Under a path, the leaf sees the `::`-joined path as its prefix; the
      relative flag is raised by the leaf or by a relative first segment at
      the root. */
  lemma {:induction false} PathTreeExtraction(segs: seq<string>, leaf: UseTree, prefix: string)
    requires forall k :: 0 <= k < |segs| ==> segs[k] != ""
    ensures var e := ExtractImportsFromTree(PathTree(segs, leaf), prefix);
            var l := ExtractImportsFromTree(leaf, QualifyAll(prefix, segs));
            e.imports == l.imports && e.hasGlob == l.hasGlob &&
            e.hasRelative == (l.hasRelative || (prefix == "" && segs != [] && IsRelativePathKeyword(segs[0])))
    decreases |segs|
  {
    if segs != [] {
      PathTreeExtraction(segs[1..], leaf, Qualify(prefix, segs[0]));
      assert Qualify(prefix, segs[0]) != "";
    }
  }

  /** The prefix after walking `segs` from `prefix`. */
  function QualifyAll(prefix: string, segs: seq<string>): string
    decreases |segs|
  {
    if segs == [] then prefix else QualifyAll(Qualify(prefix, segs[0]), segs[1..])
  }

  lemma {:induction false} QualifyAllJoin(prefix: string, segs: seq<string>, last: string)
    requires prefix != ""
    ensures Qualify(QualifyAll(prefix, segs), last) == Join([prefix] + segs + [last], "::")
    decreases |segs|
  {
    if segs == [] {
      assert [prefix] + segs + [last] == [prefix, last];
    } else {
      QualifyAllJoin(prefix + "::" + segs[0], segs[1..], last);
      JoinHead(prefix, segs[0], segs[1..] + [last]);
      assert [prefix] + segs + [last] == [prefix] + ([segs[0]] + (segs[1..] + [last]));
      assert [prefix + "::" + segs[0]] + segs[1..] + [last] == [prefix + "::" + segs[0]] + (segs[1..] + [last]);
    }
  }

  lemma JoinHead(a: string, b: string, rest: seq<string>)
    ensures Join([a] + ([b] + rest), "::") == Join([a + "::" + b] + rest, "::")
  {
    var l := [a] + ([b] + rest);
    assert l[1..] == [b] + rest;
    if rest == [] {
      assert l == [a, b];
    } else {
      assert ([b] + rest)[1..] == rest;
      assert ([a + "::" + b] + rest)[1..] == rest;
    }
  }

  /** `use s1::...::sn::C;` yields exactly one import, named `C`, whose path
      is the `::`-joined segments; only a relative first segment raises a
      flag. With `as D` the name is the alias and the path is unchanged. */
  lemma PlainUse(segs: seq<string>, leaf: UseTree)
    requires forall k :: 0 <= k < |segs| ==> segs[k] != ""
    requires leaf.UseName? || leaf.UseRename?
    ensures var e := ImportsFromUse(PathTree(segs, leaf));
            e.imports == [ImportInfo(if leaf.UseName? then leaf.ident else leaf.rename,
                                     Join(segs + [leaf.ident], "::"))] &&
            !e.hasGlob &&
            (e.hasRelative <==> segs != [] && IsRelativePathKeyword(segs[0]))
  {
    PathTreeExtraction(segs, leaf, "");
    if segs == [] {
      assert segs + [leaf.ident] == [leaf.ident];
    } else {
      assert QualifyAll("", segs) == QualifyAll(segs[0], segs[1..]);
      QualifyAllJoin(segs[0], segs[1..], leaf.ident);
      assert [segs[0]] + segs[1..] + [leaf.ident] == segs + [leaf.ident];
    }
  }

  /** `use s1::...::sn::*;` yields no import and raises the glob flag. */
  lemma GlobUse(segs: seq<string>)
    requires forall k :: 0 <= k < |segs| ==> segs[k] != ""
    ensures ImportsFromUse(PathTree(segs, UseGlob)).imports == []
    ensures ImportsFromUse(PathTree(segs, UseGlob)).hasGlob
  {
    PathTreeExtraction(segs, UseGlob, "");
  }

  /** The glob flag is raised exactly when the tree holds a glob. */
  lemma {:induction false} GlobFlag(t: UseTree, prefix: string)
    ensures ExtractImportsFromTree(t, prefix).hasGlob <==> HasGlobLeaf(t)
    decreases t
  {
    match t
    case UsePath(ident, sub) => GlobFlag(sub, Qualify(prefix, ident));
    case UseName(_) =>
    case UseRename(_, _) =>
    case UseGlob =>
    case UseGroup(items) =>
      GroupIsConcatenation(items, prefix);
      forall i | 0 <= i < |items| ensures ExtractImportsFromTree(items[i], prefix).hasGlob <==> HasGlobLeaf(items[i]) {
        GlobFlag(items[i], prefix);
      }
  }

  /** The relative flag is raised only by a path at the root of the whole
      item (a non-empty prefix never raises it), and there exactly when the
      path starts with `self`, `super` or `crate`. */
  lemma {:induction false} RelativeFlag(t: UseTree, prefix: string)
    requires WellFormed(t)
    ensures ExtractImportsFromTree(t, prefix).hasRelative <==> prefix == "" && StartsRelative(t)
    decreases t
  {
    match t
    case UsePath(ident, sub) =>
      RelativeFlag(sub, Qualify(prefix, ident));
    case UseName(_) =>
    case UseRename(_, _) =>
    case UseGlob =>
    case UseGroup(items) =>
      GroupIsConcatenation(items, prefix);
      forall i | 0 <= i < |items|
        ensures ExtractImportsFromTree(items[i], prefix).hasRelative <==> prefix == "" && StartsRelative(items[i])
      {
        RelativeFlag(items[i], prefix);
      }
  }

  lemma {:induction false} FlattenLength(ss: seq<seq<ImportInfo>>, ns: seq<nat>)
    requires |ss| == |ns| && forall i :: 0 <= i < |ss| ==> |ss[i]| == ns[i]
    ensures |Flatten(ss)| == Sum(ns)
    decreases |ss|
  {
    if ss != [] {
      FlattenLength(ss[1..], ns[1..]);
    }
  }

  /** One import per `Name` or `Rename` leaf. */
  lemma {:induction false} ImportCount(t: UseTree, prefix: string)
    ensures |ExtractImportsFromTree(t, prefix).imports| == Leaves(t)
    decreases t
  {
    match t
    case UsePath(ident, sub) => ImportCount(sub, Qualify(prefix, ident));
    case UseName(_) =>
    case UseRename(_, _) =>
    case UseGlob =>
    case UseGroup(items) =>
      GroupIsConcatenation(items, prefix);
      var ss := seq(|items|, i requires 0 <= i < |items| => ExtractImportsFromTree(items[i], prefix).imports);
      var ns := seq(|items|, i requires 0 <= i < |items| => Leaves(items[i]));
      forall i | 0 <= i < |items| ensures |ss[i]| == ns[i] {
        ImportCount(items[i], prefix);
      }
      FlattenLength(ss, ns);
  }
}
