/** Events: the `emit` calls found in a contract's impl blocks, the `feed`
    calls found in a method, and the first-occurrence de-duplication of
    events by topic. */
module Events {
  import opened Common
  import opened Syntax
  import opened Descriptors

  /** The topic named by the first argument of `emit`: a string literal's
      value, or a path's identifiers joined with `::`. */
  function TopicFromExpr(e: Expr): (r: Option<string>)
    ensures r.Some? <==> e.ELitStr? || e.EPath?
    ensures e.ELitStr? ==> r == Some(e.value)
    ensures e.EPath? ==> r == Some(Join(e.path, "::"))
  {
    match e
    case ELitStr(v) => Some(v)
    case EPath(p) => Some(Join(p, "::"))
    case _ => None
  }

  /** The event data type guessed from the second argument of `emit`: the
      path of a struct literal, of a called function (`Type::new()` gives
      `Type::new`) or of a path; the unit type for anything else. */
  function TypeFromExpr(e: Expr): (r: Ty)
    ensures e.EStruct? ==> r == PathTy(e.spath)
    ensures e.ECall? && e.func.EPath? ==> r == PathTy(e.func.path)
    ensures e.EPath? ==> r == PathTy(e.path)
    ensures !(e.EStruct? || e.EPath? || (e.ECall? && e.func.EPath?)) ==> r == Unit
  {
    match e
    case EStruct(p, _) => PathTy(p)
    case ECall(f, _) => if f.EPath? then PathTy(f.path) else Unit
    case EPath(p) => PathTy(p)
    case _ => Unit
  }

  /** The call's function is the path `abi::<name>` or `<name>`. */
  predicate CallsAbi(func: Expr, name: string) {
    func.EPath? && (func.path == ["abi", name] || func.path == [name])
  }

  /** The event one call records, if it is an `emit` call with at least two
      arguments whose first names a topic. */
  function EmitEvent(func: Expr, args: seq<Expr>): (r: Option<EventInfo>)
    ensures r.Some? <==> CallsAbi(func, "emit") && |args| >= 2 && TopicFromExpr(args[0]).Some?
    ensures r.Some? ==> r.value.topic == TopicFromExpr(args[0]).value &&
                        r.value.dataType == TypeFromExpr(args[1])
  {
    if CallsAbi(func, "emit") && |args| >= 2 && TopicFromExpr(args[0]).Some?
    then Some(EventInfo(TopicFromExpr(args[0]).value, TypeFromExpr(args[1]), args[0].ELitStr?))
    else None
  }

  function OptList<T>(o: Option<T>): seq<T> {
    if o.Some? then [o.value] else []
  }

  /** The events recorded while walking `e`: a call's own event first, then
      those of its function and of its arguments in order. */
  function EmitsOf(e: Expr): seq<EventInfo>
    decreases e, 1
  {
    match e
    case ECall(f, args) => OptList(EmitEvent(f, args)) + EmitsOf(f) + EmitsOfSeq(args, e)
    case EStruct(_, fields) => EmitsOfSeq(fields, e)
    case EOther(children) => EmitsOfSeq(children, e)
    case _ => []
  }

  /** The events of the sub-expressions `es` of `parent`, in order. */
  function EmitsOfSeq(es: seq<Expr>, ghost parent: Expr): seq<EventInfo>
    requires forall i :: 0 <= i < |es| ==> es[i] < parent
    decreases parent, 0
  {
    Flatten(seq(|es|, i requires 0 <= i < |es| => EmitsOf(es[i])))
  }

  function EmitsOfBody(body: seq<Expr>): seq<EventInfo> {
    EmitsOfSeq(body, EOther(body))
  }

  function EmitsOfItem(item: ImplItem): seq<EventInfo> {
    if item.FnItem? then EmitsOfBody(item.fn.body) else []
  }

  /** The events of an impl block, method by method in item order. */
  function EmitsOfImpl(block: ItemImpl): seq<EventInfo> {
    Flatten(seq(|block.items|, i requires 0 <= i < |block.items| => EmitsOfItem(block.items[i])))
  }

  /** Walks expressions and records the events of the `emit` calls it
      meets, nested calls included. */
  class EmitVisitor {
    var events: seq<EventInfo>

    constructor ()
      ensures events == []
    {
      events := [];
    }

    method VisitExpr(e: Expr)
      modifies this
      ensures events == old(events) + EmitsOf(e)
      decreases e, 2
    {
      match e
      case ECall(f, args) =>
        VisitCall(f, args, e);
      case EStruct(_, fields) =>
        VisitAll(fields, e);
      case EOther(children) =>
        VisitAll(children, e);
      case _ =>
    }

    /** `visit_expr_call`: the call's own event, then the walk into its
        function and its arguments. */
    method VisitCall(f: Expr, args: seq<Expr>, ghost parent: Expr)
      requires f < parent && forall i :: 0 <= i < |args| ==> args[i] < parent
      modifies this
      ensures events == old(events) + OptList(EmitEvent(f, args)) + EmitsOf(f) + EmitsOfSeq(args, parent)
      decreases parent, 1
    {
      var ev := EmitEvent(f, args);
      if ev.Some? {
        events := events + [ev.value];
      }
      VisitExpr(f);
      VisitAll(args, parent);
    }

    /** Visits the sub-expressions `es` of `parent` in order. */
    method VisitAll(es: seq<Expr>, ghost parent: Expr)
      requires forall i :: 0 <= i < |es| ==> es[i] < parent
      modifies this
      ensures events == old(events) + EmitsOfSeq(es, parent)
      decreases parent, 0
    {
      ghost var parts := seq(|es|, i requires 0 <= i < |es| => EmitsOf(es[i]));
      var k := 0;
      while k < |es|
        invariant 0 <= k <= |es|
        invariant events == old(events) + Flatten(parts[..k])
      {
        VisitExpr(es[k]);
        FlattenSnoc(parts, k);
        k := k + 1;
      }
      assert parts[..|es|] == parts;
    }

    /** `visit_item_impl`: every method body of the block, in item order. */
    method VisitImpl(block: ItemImpl)
      modifies this
      ensures events == old(events) + EmitsOfImpl(block)
    {
      ghost var parts := seq(|block.items|, i requires 0 <= i < |block.items| => EmitsOfItem(block.items[i]));
      var k := 0;
      while k < |block.items|
        invariant 0 <= k <= |block.items|
        invariant events == old(events) + Flatten(parts[..k])
      {
        var item := block.items[k];
        if item.FnItem? {
          VisitAll(item.fn.body, EOther(item.fn.body));
        }
        FlattenSnoc(parts, k);
        k := k + 1;
      }
      assert parts[..|block.items|] == parts;
    }
  }

  // ---------------------------------------------------------------------
  // `feed` calls
  // ---------------------------------------------------------------------

  /** The expressions passed to `feed` calls met while walking `e`. */
  function FeedsOf(e: Expr): seq<Expr>
    decreases e, 1
  {
    match e
    case ECall(f, args) =>
      (if CallsAbi(f, "feed") && args != [] then [args[0]] else []) + FeedsOf(f) + FeedsOfSeq(args, e)
    case EStruct(_, fields) => FeedsOfSeq(fields, e)
    case EOther(children) => FeedsOfSeq(children, e)
    case _ => []
  }

  /** The `feed` arguments in the sub-expressions `es` of `parent`. */
  function FeedsOfSeq(es: seq<Expr>, ghost parent: Expr): seq<Expr>
    requires forall i :: 0 <= i < |es| ==> es[i] < parent
    decreases parent, 0
  {
    Flatten(seq(|es|, i requires 0 <= i < |es| => FeedsOf(es[i])))
  }

  /** Walks a method body and records the expressions passed to `feed`. */
  class FeedVisitor {
    var feedExprs: seq<Expr>

    constructor ()
      ensures feedExprs == []
    {
      feedExprs := [];
    }

    method VisitExpr(e: Expr)
      modifies this
      ensures feedExprs == old(feedExprs) + FeedsOf(e)
      decreases e, 2
    {
      match e
      case ECall(f, args) =>
        VisitCall(f, args, e);
      case EStruct(_, fields) =>
        VisitAll(fields, e);
      case EOther(children) =>
        VisitAll(children, e);
      case _ =>
    }

    /** `visit_expr_call`: the first argument of a `feed` call, then the
        walk into the call's function and its arguments. */
    method VisitCall(f: Expr, args: seq<Expr>, ghost parent: Expr)
      requires f < parent && forall i :: 0 <= i < |args| ==> args[i] < parent
      modifies this
      ensures feedExprs == old(feedExprs) + (if CallsAbi(f, "feed") && args != [] then [args[0]] else []) +
                           FeedsOf(f) + FeedsOfSeq(args, parent)
      decreases parent, 1
    {
      if CallsAbi(f, "feed") && args != [] {
        feedExprs := feedExprs + [args[0]];
      }
      VisitExpr(f);
      VisitAll(args, parent);
    }

    method VisitAll(es: seq<Expr>, ghost parent: Expr)
      requires forall i :: 0 <= i < |es| ==> es[i] < parent
      modifies this
      ensures feedExprs == old(feedExprs) + FeedsOfSeq(es, parent)
      decreases parent, 0
    {
      ghost var parts := seq(|es|, i requires 0 <= i < |es| => FeedsOf(es[i]));
      var k := 0;
      while k < |es|
        invariant 0 <= k <= |es|
        invariant feedExprs == old(feedExprs) + Flatten(parts[..k])
      {
        VisitExpr(es[k]);
        FlattenSnoc(parts, k);
        k := k + 1;
      }
      assert parts[..|es|] == parts;
    }
  }

  /** The `feed` expressions of a method body. */
  function FeedsOfBody(body: seq<Expr>): seq<Expr> {
    FeedsOfSeq(body, EOther(body))
  }

  /** `get_feed_exprs`: runs a fresh visitor over the method's body. */
  method GetFeedExprs(m: ImplItemFn) returns (exprs: seq<Expr>)
    ensures exprs == FeedsOfBody(m.body)
  {
    var v := new FeedVisitor();
    v.VisitAll(m.body, EOther(m.body));
    exprs := v.feedExprs;
  }

  /** Whether the method body calls `feed`. */
  predicate HasFeedCalls(m: ImplItemFn) {
    FeedsOfBody(m.body) != []
  }

  // ---------------------------------------------------------------------
  // De-duplication by topic
  // ---------------------------------------------------------------------

  /** The events whose topic is not in `seen`, keeping only the first event
      of each topic, in order. */
  function DedupFrom(evs: seq<EventInfo>, seen: set<string>): seq<EventInfo>
    decreases |evs|
  {
    if evs == [] then []
    else if evs[0].topic in seen then DedupFrom(evs[1..], seen)
    else [evs[0]] + DedupFrom(evs[1..], seen + {evs[0].topic})
  }

  function DedupByTopic(evs: seq<EventInfo>): seq<EventInfo> {
    DedupFrom(evs, {})
  }

  function Topics(evs: seq<EventInfo>): set<string> {
    set k | 0 <= k < |evs| :: evs[k].topic
  }

  /** `j` is the first position of its topic in `evs`. */
  predicate FirstOfTopic(evs: seq<EventInfo>, j: int) {
    0 <= j < |evs| && forall i :: 0 <= i < j ==> evs[i].topic != evs[j].topic
  }

  /** `e` is the first event of its topic in `evs`. */
  ghost predicate IsFirstOfTopic(evs: seq<EventInfo>, e: EventInfo) {
    exists j :: FirstOfTopic(evs, j) && evs[j] == e
  }

  lemma TopicsCons(e: EventInfo, s: seq<EventInfo>)
    ensures Topics([e] + s) == {e.topic} + Topics(s)
  {
    var c := [e] + s;
    assert c[0] == e;
    forall x | x in Topics(c) ensures x in {e.topic} + Topics(s) {
      var k :| 0 <= k < |c| && c[k].topic == x;
      if k > 0 { assert c[k] == s[k - 1]; }
    }
    forall x | x in Topics(s) ensures x in Topics(c) {
      var k :| 0 <= k < |s| && s[k].topic == x;
      assert c[k + 1] == s[k];
    }
  }

  /** What de-duplication keeps: no topic of `seen`, no topic twice, and
      every topic of `evs` outside `seen`. */
  lemma {:induction false} DedupFromFacts(evs: seq<EventInfo>, seen: set<string>)
    ensures forall k :: 0 <= k < |DedupFrom(evs, seen)| ==> DedupFrom(evs, seen)[k].topic !in seen
    ensures forall k, l :: 0 <= k < l < |DedupFrom(evs, seen)| ==>
              DedupFrom(evs, seen)[k].topic != DedupFrom(evs, seen)[l].topic
    ensures Topics(DedupFrom(evs, seen)) == Topics(evs) - seen
    decreases |evs|
  {
    if evs != [] {
      var rest := evs[1..];
      var t := evs[0].topic;
      assert evs == [evs[0]] + rest;
      TopicsCons(evs[0], rest);
      if t in seen {
        DedupFromFacts(rest, seen);
      } else {
        DedupFromFacts(rest, seen + {t});
        TopicsCons(evs[0], DedupFrom(rest, seen + {t}));
      }
    }
  }

  /** The `k`-th kept event is the first event of its topic in `evs`. */
  lemma {:induction false} DedupFromFirstAt(evs: seq<EventInfo>, seen: set<string>, k: nat)
    requires k < |DedupFrom(evs, seen)|
    ensures IsFirstOfTopic(evs, DedupFrom(evs, seen)[k])
    decreases |evs|
  {
    var rest := evs[1..];
    var t := evs[0].topic;
    var r := DedupFrom(evs, seen);
    var seen' := if t in seen then seen else seen + {t};
    var tail := DedupFrom(rest, seen');
    var shift := if t in seen then 0 else 1;
    if t !in seen && k == 0 {
      assert FirstOfTopic(evs, 0);
    } else {
      assert r[k] == tail[k - shift];
      DedupFromFacts(rest, seen');
      DedupFromFirstAt(rest, seen', k - shift);
      var j :| FirstOfTopic(rest, j) && rest[j] == tail[k - shift];
      assert rest[j] == tail[k - shift];
      assert evs[j + 1] == rest[j];
      forall i | 0 <= i < j + 1 ensures evs[i].topic != evs[j + 1].topic {
        if i > 0 { assert evs[i] == rest[i - 1]; }
      }
      assert FirstOfTopic(evs, j + 1);
    }
  }

  /** Adding one event at the end keeps it exactly when its topic is new:
      de-duplication preserves order and keeps first occurrences. */
  lemma {:induction false} DedupFromSnoc(evs: seq<EventInfo>, e: EventInfo, seen: set<string>)
    ensures DedupFrom(evs + [e], seen) ==
            DedupFrom(evs, seen) + (if e.topic in seen + Topics(evs) then [] else [e])
    decreases |evs|
  {
    if evs == [] {
      assert evs + [e] == [e];
      assert DedupFrom([e][1..], seen + {e.topic}) == [];
    } else {
      var rest := evs[1..];
      var t := evs[0].topic;
      assert (evs + [e])[1..] == rest + [e];
      TopicsCons(evs[0], rest);
      assert evs == [evs[0]] + rest;
      if t in seen {
        DedupFromSnoc(rest, e, seen);
      } else {
        DedupFromSnoc(rest, e, seen + {t});
      }
    }
  }

  /** De-duplication by topic keeps exactly one event per distinct topic,
      each the first event of that topic. */
  lemma DedupByTopicSpec(evs: seq<EventInfo>)
    ensures forall k, l :: 0 <= k < l < |DedupByTopic(evs)| ==>
              DedupByTopic(evs)[k].topic != DedupByTopic(evs)[l].topic
    ensures Topics(DedupByTopic(evs)) == Topics(evs)
    ensures forall k :: 0 <= k < |DedupByTopic(evs)| ==> IsFirstOfTopic(evs, DedupByTopic(evs)[k])
  {
    var r := DedupByTopic(evs);
    assert r == DedupFrom(evs, {});
    DedupFromFacts(evs, {});
    forall k | 0 <= k < |r|
      ensures IsFirstOfTopic(evs, r[k])
    {
      DedupFromFirstAt(evs, {}, k);
    }
  }

  /** De-duplicating a sequence whose topics are already distinct changes
      nothing. */
  lemma {:induction false} DedupDistinct(evs: seq<EventInfo>, seen: set<string>)
    requires forall k, l :: 0 <= k < l < |evs| ==> evs[k].topic != evs[l].topic
    requires forall k :: 0 <= k < |evs| ==> evs[k].topic !in seen
    ensures DedupFrom(evs, seen) == evs
    decreases |evs|
  {
    if evs != [] {
      DedupDistinct(evs[1..], seen + {evs[0].topic});
    }
  }

  /** The loop with a `seen` set that `emit_calls` and the `contract` macro
      run over a list of events. */
  method DedupLoop(evs: seq<EventInfo>) returns (out: seq<EventInfo>)
    ensures out == DedupByTopic(evs)
  {
    var seen: set<string> := {};
    out := [];
    var k := 0;
    while k < |evs|
      invariant 0 <= k <= |evs|
      invariant out + DedupFrom(evs[k..], seen) == DedupByTopic(evs)
    {
      assert evs[k..][1..] == evs[k + 1..];
      if evs[k].topic !in seen {
        seen := seen + {evs[k].topic};
        out := out + [evs[k]];
      }
      k := k + 1;
    }
  }

  /** `emit_calls`: the events of an impl block, de-duplicated by topic. */
  method EmitCalls(block: ItemImpl) returns (events: seq<EventInfo>)
    ensures events == DedupByTopic(EmitsOfImpl(block))
  {
    var visitor := new EmitVisitor();
    visitor.VisitImpl(block);
    assert visitor.events == EmitsOfImpl(block);
    events := DedupLoop(visitor.events);
  }
}
