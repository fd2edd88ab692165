/** The data-driver module the macro generates: four name-keyed match
    tables (`encode_input_fn`, `decode_input_fn`, `decode_output_fn`,
    `decode_event`), each a list of arms tried in order with a fallback
    arm that reports the unknown name. The conversions an arm performs
    (`json_to_rkyv`, `rkyv_to_json`, ...) are kept symbolic. */
module DataDriver {
  import opened Common
  import opened Syntax
  import opened Descriptors
  import opened Resolve

  // ---------------------------------------------------------------------
  // arms and first-match dispatch
  // ---------------------------------------------------------------------

  /** What an arm matches: a string literal, or a path naming a `&str`
      constant whose value is known only to the compiled program. */
  datatype Pattern = Lit(text: string) | ConstPath(segs: seq<string>)

  /** What an arm does. */
  datatype Action =
    | CustomRequired(fnName: string)     // Err(Unsupported("custom handler required: <fn>"))
    | JsonToRkyv(ty: Ty)                 // json_to_rkyv::<ty>(json)
    | RkyvToJson(ty: Ty)                 // rkyv_to_json::<ty>(rkyv)
    | NullOutput                         // Ok(JsonValue::Null)
    | RkyvToJsonU64                      // rkyv_to_json_u64(rkyv)
    | CallHandler(handler: string)       // <handler>(json) or <handler>(rkyv)

  datatype Arm = Arm(pattern: Pattern, action: Action)

  /** Does the arm's pattern match the requested name? `constOf` gives the
      value of the constant a path pattern names. */
  predicate Matches(p: Pattern, name: string, constOf: seq<string> -> string) {
    match p
    case Lit(t) => t == name
    case ConstPath(segs) => constOf(segs) == name
  }

  /** Position `k` holds the first arm matching `name`. */
  predicate FirstMatch(arms: seq<Arm>, name: string, constOf: seq<string> -> string, k: int) {
    0 <= k < |arms| && Matches(arms[k].pattern, name, constOf) &&
    forall j :: 0 <= j < k ==> !Matches(arms[j].pattern, name, constOf)
  }

  /** A Rust `match` on a string: the first arm whose pattern matches. */
  function Dispatch(arms: seq<Arm>, name: string, constOf: seq<string> -> string): (r: Option<Action>)
    ensures r.None? <==> forall k :: 0 <= k < |arms| ==> !Matches(arms[k].pattern, name, constOf)
    decreases |arms|
  {
    if arms == [] then None
    else if Matches(arms[0].pattern, name, constOf) then Some(arms[0].action)
    else
      assert forall k :: 1 <= k < |arms| ==> arms[k] == arms[1..][k - 1];
      Dispatch(arms[1..], name, constOf)
  }

  /** The first matching arm decides. */
  lemma {:induction false} DispatchFirst(arms: seq<Arm>, name: string, constOf: seq<string> -> string, k: int)
    requires FirstMatch(arms, name, constOf, k)
    ensures Dispatch(arms, name, constOf) == Some(arms[k].action)
    decreases |arms|
  {
    if k > 0 {
      assert !Matches(arms[0].pattern, name, constOf);
      assert FirstMatch(arms[1..], name, constOf, k - 1);
      DispatchFirst(arms[1..], name, constOf, k - 1);
    }
  }

  /** Arms after a matching one are never reached; arms before that match
      nothing are skipped. */
  lemma {:induction false} DispatchAppend(a: seq<Arm>, b: seq<Arm>, name: string, constOf: seq<string> -> string)
    ensures Dispatch(a, name, constOf).Some? ==> Dispatch(a + b, name, constOf) == Dispatch(a, name, constOf)
    ensures Dispatch(a, name, constOf).None? ==> Dispatch(a + b, name, constOf) == Dispatch(b, name, constOf)
    decreases |a|
  {
    if a == [] {
      assert a + b == b;
    } else {
      assert (a + b)[0] == a[0];
      assert (a + b)[1..] == a[1..] + b;
      DispatchAppend(a[1..], b, name, constOf);
    }
  }

  const EncodeInputUnknown := "encode_input: unknown fn "
  const DecodeInputUnknown := "decode_input: unknown fn "
  const DecodeOutputUnknown := "decode_output: unknown fn "
  const DecodeEventUnknown := "decode_event: unknown event "

  /** A generated driver method: the matching arm's action, or the
      fallback arm's `Unsupported("<prefix><name>")`. */
  function Call(arms: seq<Arm>, unknownPrefix: string, name: string, constOf: seq<string> -> string): (r: Result<Action, string>)
    ensures r.Err? <==> forall k :: 0 <= k < |arms| ==> !Matches(arms[k].pattern, name, constOf)
    ensures r.Err? ==> r.error == unknownPrefix + name
  {
    var a := Dispatch(arms, name, constOf);
    if a.Some? then Ok(a.value) else Err(unknownPrefix + name)
  }

  /** The error text of a custom function's generic arm. */
  function CustomRequiredMessage(fnName: string): string {
    "custom handler required: " + fnName
  }

  // ---------------------------------------------------------------------
  // get_resolved_type
  // ---------------------------------------------------------------------

  /** `get_resolved_type`: the type map's entry for the type's token text,
      if there is one and it parses as a type; otherwise the type itself.
      `parseType` stands for parsing a string as a Rust type. */
  function GetResolvedType(ty: Ty, typeMap: map<string, string>, parseType: string -> Option<Ty>): (r: Ty)
    ensures Render(ty) !in typeMap ==> r == ty
    ensures Render(ty) in typeMap ==>
              r == (if parseType(typeMap[Render(ty)]).Some? then parseType(typeMap[Render(ty)]).value else ty)
  {
    var key := Render(ty);
    if key in typeMap && parseType(typeMap[key]).Some? then parseType(typeMap[key]).value else ty
  }

  /** With the map `build_type_map` returns, every input and output type of
      every function, and every event data type, is a key: the tables
      always use the resolved form when it parses. */
  lemma TypeMapCoversTypes(imports: seq<ImportInfo>, functions: seq<FunctionInfo>, events: seq<EventInfo>,
                           parseType: string -> Option<Ty>)
    ensures forall f :: f in functions ==>
              Render(f.inputType) in TypeMapSpec(imports, functions, events) &&
              Render(f.outputType) in TypeMapSpec(imports, functions, events)
    ensures forall e :: e in events ==>
              Render(e.dataType) in TypeMapSpec(imports, functions, events) &&
              e.topic in TypeMapSpec(imports, functions, events)
  {
    TypeMapKeys(imports, functions, events);
  }

  // ---------------------------------------------------------------------
  // the three function tables
  // ---------------------------------------------------------------------

  datatype Table = EncodeInputTable | DecodeInputTable | DecodeOutputTable

  /** The handler role whose arms a table appends. */
  function RoleOf(t: Table): DataDriverRole {
    match t
    case EncodeInputTable => EncodeInput
    case DecodeInputTable => DecodeInput
    case DecodeOutputTable => DecodeOutput
  }

  function UnknownPrefix(t: Table): string {
    match t
    case EncodeInputTable => EncodeInputUnknown
    case DecodeInputTable => DecodeInputUnknown
    case DecodeOutputTable => DecodeOutputUnknown
  }

  /** The action of a function's arm in a table. The output rules are
      judged on the unresolved output text, first match wins. */
  function FunctionAction(f: FunctionInfo, t: Table, typeMap: map<string, string>, parseType: string -> Option<Ty>): Action {
    if f.isCustom then CustomRequired(f.name)
    else match t
      case EncodeInputTable => JsonToRkyv(GetResolvedType(f.inputType, typeMap, parseType))
      case DecodeInputTable => RkyvToJson(GetResolvedType(f.inputType, typeMap, parseType))
      case DecodeOutputTable =>
        if Render(f.outputType) == "()" then NullOutput
        else if Render(f.outputType) == "u64" then RkyvToJsonU64
        else RkyvToJson(GetResolvedType(f.outputType, typeMap, parseType))
  }

  /** One arm per function, in order, keyed by its name. */
  function FunctionArms(functions: seq<FunctionInfo>, t: Table, typeMap: map<string, string>,
                        parseType: string -> Option<Ty>): seq<Arm> {
    seq(|functions|, i requires 0 <= i < |functions| => Arm(Lit(functions[i].name), FunctionAction(functions[i], t, typeMap, parseType)))
  }

  function HandlerArm(h: CustomDataDriverHandler): Arm {
    Arm(Lit(h.fnName), CallHandler(h.func.ident))
  }

  /** The arms of the handlers with the given role, in order. */
  function HandlerArms(handlers: seq<CustomDataDriverHandler>, role: DataDriverRole): seq<Arm>
    decreases |handlers|
  {
    if handlers == [] then []
    else
      var h := handlers[|handlers| - 1];
      HandlerArms(handlers[..|handlers| - 1], role) + (if h.role == role then [HandlerArm(h)] else [])
  }

  /** `generate_encode_input_arms`, `generate_decode_input_arms` and
      `generate_decode_output_arms`: the function arms, then a loop
      pushing one arm per handler of the table's role. */
  method GenerateArms(functions: seq<FunctionInfo>, handlers: seq<CustomDataDriverHandler>, t: Table,
                      typeMap: map<string, string>, parseType: string -> Option<Ty>) returns (arms: seq<Arm>)
    ensures arms == FunctionArms(functions, t, typeMap, parseType) + HandlerArms(handlers, RoleOf(t))
  {
    arms := FunctionArms(functions, t, typeMap, parseType);
    var role := RoleOf(t);
    var k := 0;
    while k < |handlers|
      invariant 0 <= k <= |handlers|
      invariant arms == FunctionArms(functions, t, typeMap, parseType) + HandlerArms(handlers[..k], role)
    {
      assert handlers[..k + 1][..k] == handlers[..k];
      if handlers[k].role == role {
        arms := arms + [HandlerArm(handlers[k])];
      }
      k := k + 1;
    }
    assert handlers[..k] == handlers;
  }

  /** The handler arms are exactly the arms of the handlers whose role is
      the table's, in order: a handler of another role never appears. */
  lemma {:induction false} HandlerArmsMembers(handlers: seq<CustomDataDriverHandler>, role: DataDriverRole)
    ensures |HandlerArms(handlers, role)| <= |handlers|
    ensures forall a :: a in HandlerArms(handlers, role) <==>
              exists h :: h in handlers && h.role == role && a == HandlerArm(h)
    decreases |handlers|
  {
    if handlers != [] {
      var init := handlers[..|handlers| - 1];
      HandlerArmsMembers(init, role);
      assert handlers == init + [handlers[|handlers| - 1]];
      forall a ensures a in HandlerArms(handlers, role) <==> exists h :: h in handlers && h.role == role && a == HandlerArm(h) {
        if exists h :: h in handlers && h.role == role && a == HandlerArm(h) {
          var h :| h in handlers && h.role == role && a == HandlerArm(h);
          if h != handlers[|handlers| - 1] {
            assert h in init;
          }
        }
      }
    }
  }

  /** The first handler of the role for `name`, if any, decides among the
      handler arms. */
  lemma {:induction false} HandlerDispatch(handlers: seq<CustomDataDriverHandler>, role: DataDriverRole, name: string,
                                           constOf: seq<string> -> string)
    ensures Dispatch(HandlerArms(handlers, role), name, constOf).None? <==>
            forall i :: 0 <= i < |handlers| ==> !(handlers[i].role == role && handlers[i].fnName == name)
    ensures forall i :: 0 <= i < |handlers| && handlers[i].role == role && handlers[i].fnName == name &&
                        (forall j :: 0 <= j < i ==> !(handlers[j].role == role && handlers[j].fnName == name)) ==>
              Dispatch(HandlerArms(handlers, role), name, constOf) == Some(CallHandler(handlers[i].func.ident))
    decreases |handlers|
  {
    if handlers != [] {
      var n := |handlers| - 1;
      var init := handlers[..n];
      var h := handlers[n];
      HandlerDispatch(init, role, name, constOf);
      var tail := if h.role == role then [HandlerArm(h)] else [];
      DispatchAppend(HandlerArms(init, role), tail, name, constOf);
      forall i | 0 <= i < n ensures handlers[i] == init[i] { }
      if Dispatch(HandlerArms(init, role), name, constOf).None? && h.role == role && h.fnName == name {
        assert FirstMatch(tail, name, constOf, 0);
        DispatchFirst(tail, name, constOf, 0);
      }
    }
  }

  /** What a function table answers for the name of a function: the first
      function of that name decides, by the rules of its arm (custom first;
      for outputs, `()` before `u64` before the generic conversion, judged
      on the unresolved output text), so a handler registered for the name
      of a function is shadowed. */
  lemma TableCallFunction(functions: seq<FunctionInfo>, handlers: seq<CustomDataDriverHandler>, t: Table,
                          typeMap: map<string, string>, parseType: string -> Option<Ty>, i: nat,
                          constOf: seq<string> -> string)
    requires i < |functions|
    requires forall j :: 0 <= j < i ==> functions[j].name != functions[i].name
    ensures Call(FunctionArms(functions, t, typeMap, parseType) + HandlerArms(handlers, RoleOf(t)),
                 UnknownPrefix(t), functions[i].name, constOf) ==
            Ok(if functions[i].isCustom then CustomRequired(functions[i].name)
               else if t == EncodeInputTable then JsonToRkyv(GetResolvedType(functions[i].inputType, typeMap, parseType))
               else if t == DecodeInputTable then RkyvToJson(GetResolvedType(functions[i].inputType, typeMap, parseType))
               else if Render(functions[i].outputType) == "()" then NullOutput
               else if Render(functions[i].outputType) == "u64" then RkyvToJsonU64
               else RkyvToJson(GetResolvedType(functions[i].outputType, typeMap, parseType)))
  {
    var fa := FunctionArms(functions, t, typeMap, parseType);
    DispatchAppend(fa, HandlerArms(handlers, RoleOf(t)), functions[i].name, constOf);
    assert FirstMatch(fa, functions[i].name, constOf, i);
    DispatchFirst(fa, functions[i].name, constOf, i);
  }

  /** With no function of that name, the first handler of the table's
      role registered for it is called. */
  lemma TableCallHandler(functions: seq<FunctionInfo>, handlers: seq<CustomDataDriverHandler>, t: Table,
                         typeMap: map<string, string>, parseType: string -> Option<Ty>, i: nat,
                         constOf: seq<string> -> string)
    requires i < |handlers| && handlers[i].role == RoleOf(t)
    requires forall j :: 0 <= j < i ==> !(handlers[j].role == RoleOf(t) && handlers[j].fnName == handlers[i].fnName)
    requires forall j :: 0 <= j < |functions| ==> functions[j].name != handlers[i].fnName
    ensures Call(FunctionArms(functions, t, typeMap, parseType) + HandlerArms(handlers, RoleOf(t)),
                 UnknownPrefix(t), handlers[i].fnName, constOf) == Ok(CallHandler(handlers[i].func.ident))
  {
    var fa := FunctionArms(functions, t, typeMap, parseType);
    var name := handlers[i].fnName;
    DispatchAppend(fa, HandlerArms(handlers, RoleOf(t)), name, constOf);
    HandlerDispatch(handlers, RoleOf(t), name, constOf);
    assert forall k :: 0 <= k < |fa| ==> !Matches(fa[k].pattern, name, constOf);
  }

  /** A name that is neither a function's nor that of a handler of the
      table's role gets `Unsupported("<table>: unknown fn <name>")`. */
  lemma TableCallUnknown(functions: seq<FunctionInfo>, handlers: seq<CustomDataDriverHandler>, t: Table,
                         typeMap: map<string, string>, parseType: string -> Option<Ty>, name: string,
                         constOf: seq<string> -> string)
    requires forall j :: 0 <= j < |functions| ==> functions[j].name != name
    requires forall j :: 0 <= j < |handlers| ==> !(handlers[j].role == RoleOf(t) && handlers[j].fnName == name)
    ensures Call(FunctionArms(functions, t, typeMap, parseType) + HandlerArms(handlers, RoleOf(t)),
                 UnknownPrefix(t), name, constOf) == Err(UnknownPrefix(t) + name)
  {
    var fa := FunctionArms(functions, t, typeMap, parseType);
    DispatchAppend(fa, HandlerArms(handlers, RoleOf(t)), name, constOf);
    HandlerDispatch(handlers, RoleOf(t), name, constOf);
    assert forall k :: 0 <= k < |fa| ==> !Matches(fa[k].pattern, name, constOf);
  }

  /** A custom function is answered with the custom-handler error in all
      three tables, even when a handler for its name and the table's role
      is registered. */
  lemma CustomFunctionShadowsHandler(functions: seq<FunctionInfo>, handlers: seq<CustomDataDriverHandler>, t: Table,
                                     typeMap: map<string, string>, parseType: string -> Option<Ty>, i: nat, k: nat,
                                     constOf: seq<string> -> string)
    requires i < |functions| && functions[i].isCustom
    requires forall j :: 0 <= j < i ==> functions[j].name != functions[i].name
    requires k < |handlers| && handlers[k].role == RoleOf(t) && handlers[k].fnName == functions[i].name
    ensures HandlerArm(handlers[k]) in FunctionArms(functions, t, typeMap, parseType) + HandlerArms(handlers, RoleOf(t))
    ensures Call(FunctionArms(functions, t, typeMap, parseType) + HandlerArms(handlers, RoleOf(t)),
                 UnknownPrefix(t), functions[i].name, constOf) == Ok(CustomRequired(functions[i].name))
  {
    TableCallFunction(functions, handlers, t, typeMap, parseType, i, constOf);
    HandlerArmsMembers(handlers, RoleOf(t));
  }

  // ---------------------------------------------------------------------
  // decode_event
  // ---------------------------------------------------------------------

  /** `filter_map`: the present results, in order. */
  function FilterMap<T, U>(s: seq<T>, f: T -> Option<U>): seq<U>
    decreases |s|
  {
    if s == [] then []
    else
      var x := f(s[|s| - 1]);
      FilterMap(s[..|s| - 1], f) + (if x.Some? then [x.value] else [])
  }

  /** At most one result per element, and exactly the present ones. */
  lemma {:induction false} FilterMapMembers<T, U>(s: seq<T>, f: T -> Option<U>)
    ensures |FilterMap(s, f)| <= |s|
    ensures forall y :: y in FilterMap(s, f) <==> exists i :: 0 <= i < |s| && f(s[i]) == Some(y)
    decreases |s|
  {
    if s != [] {
      var n := |s| - 1;
      var init := s[..n];
      FilterMapMembers(init, f);
      forall i | 0 <= i < n ensures s[i] == init[i] { }
      forall y ensures y in FilterMap(s, f) <==> exists i :: 0 <= i < |s| && f(s[i]) == Some(y) {
        if exists i :: 0 <= i < |s| && f(s[i]) == Some(y) {
          var i :| 0 <= i < |s| && f(s[i]) == Some(y);
          if i < n {
            assert f(init[i]) == Some(y);
          }
        }
      }
    }
  }

  /** When every element has a result, `filter_map` is a plain map. */
  lemma {:induction false} FilterMapTotal<T, U>(s: seq<T>, f: T -> Option<U>)
    requires forall i :: 0 <= i < |s| ==> f(s[i]).Some?
    ensures |FilterMap(s, f)| == |s|
    ensures forall i :: 0 <= i < |s| ==> Some(FilterMap(s, f)[i]) == f(s[i])
    decreases |s|
  {
    if s != [] {
      var n := |s| - 1;
      FilterMapTotal(s[..n], f);
      forall i | 0 <= i < n ensures s[i] == s[..n][i] { }
    }
  }

  /** The topic after replacement by its type-map entry, if any. */
  function ResolvedTopic(topic: string, typeMap: map<string, string>): string {
    if topic in typeMap then typeMap[topic] else topic
  }

  /** A single identifier starting with a lower-case letter: taken for a
      variable holding the topic. */
  predicate IsVariableLike(segs: seq<string>) {
    |segs| == 1 && |segs[0]| > 0 && IsAsciiLower(segs[0][0])
  }

  /** The arm `generate_decode_event_arms` builds for one event, if any:
      none for a topic that parses as a variable-like path, a path pattern
      for any other path, and a string literal otherwise. */
  function EventArm(e: EventInfo, typeMap: map<string, string>, parseType: string -> Option<Ty>): (r: Option<Arm>)
    ensures r.Some? ==> r.value.action == RkyvToJson(GetResolvedType(e.dataType, typeMap, parseType))
    ensures r.None? <==> ParsePath(ResolvedTopic(e.topic, typeMap)).Some? && IsVariableLike(ParsePath(ResolvedTopic(e.topic, typeMap)).value)
    ensures r.Some? && r.value.pattern.ConstPath? ==> Join(r.value.pattern.segs, "::") == ResolvedTopic(e.topic, typeMap)
    ensures r.Some? && r.value.pattern.Lit? ==>
              r.value.pattern.text == ResolvedTopic(e.topic, typeMap) && ParsePath(ResolvedTopic(e.topic, typeMap)).None?
  {
    var topic := ResolvedTopic(e.topic, typeMap);
    var action := RkyvToJson(GetResolvedType(e.dataType, typeMap, parseType));
    var path := ParsePath(topic);
    if path.Some? then
      if IsVariableLike(path.value) then None else Some(Arm(ConstPath(path.value), action))
    else Some(Arm(Lit(topic), action))
  }

  /** `generate_decode_event_arms` as written. */
  function EventArms(events: seq<EventInfo>, typeMap: map<string, string>, parseType: string -> Option<Ty>): seq<Arm> {
    FilterMap(events, (e: EventInfo) => EventArm(e, typeMap, parseType))
  }

  /** At most one arm per event, each the arm of some event. */
  lemma EventArmsMembers(events: seq<EventInfo>, typeMap: map<string, string>, parseType: string -> Option<Ty>)
    ensures |EventArms(events, typeMap, parseType)| <= |events|
    ensures forall a :: a in EventArms(events, typeMap, parseType) <==>
              exists i :: 0 <= i < |events| && EventArm(events[i], typeMap, parseType) == Some(a)
  {
    FilterMapMembers(events, (e: EventInfo) => EventArm(e, typeMap, parseType));
  }

  /** The string literal `"count_changed"` parses as a one-segment path. */
  lemma CountChangedParses()
    ensures ParsePath("count_changed") == Some(["count_changed"])
  {
    SplitNoSep("count_changed", "::");
    assert IsIdentifier("count_changed");
  }

  /** A topic that resolves to a variable-like path contributes no arm, so
      `decode_event` rejects it. */
  lemma VariableLikeTopicDropped(e: EventInfo, typeMap: map<string, string>, parseType: string -> Option<Ty>,
                                 constOf: seq<string> -> string)
    requires ParsePath(ResolvedTopic(e.topic, typeMap)).Some?
    requires IsVariableLike(ParsePath(ResolvedTopic(e.topic, typeMap)).value)
    ensures EventArms([e], typeMap, parseType) == []
    ensures Call(EventArms([e], typeMap, parseType), DecodeEventUnknown, e.topic, constOf) == Err(DecodeEventUnknown + e.topic)
  {
    var f := (x: EventInfo) => EventArm(x, typeMap, parseType);
    assert f(e).None?;
    assert [e][..0] == [];
    assert FilterMap([e], f) == FilterMap([e][..0], f) + [];
  }

  /** An event whose topic was the string literal `"count_changed"` gets
      no arm: the literal reads as a lower-case identifier and is taken for
      a variable. The generated `decode_event` then rejects the very topic
      the contract emits. */
  lemma LiteralTopicDropped(e: EventInfo, typeMap: map<string, string>, parseType: string -> Option<Ty>,
                            constOf: seq<string> -> string)
    requires e.topic == "count_changed" && e.fromLiteral
    requires e.topic !in typeMap || typeMap[e.topic] == e.topic
    ensures EventArms([e], typeMap, parseType) == []
    ensures Call(EventArms([e], typeMap, parseType), DecodeEventUnknown, e.topic, constOf) == Err(DecodeEventUnknown + e.topic)
  {
    CountChangedParses();
    assert IsVariableLike(["count_changed"]);
    VariableLikeTopicDropped(e, typeMap, parseType, constOf);
  }

  /** The corrected arm: a topic written as a string literal is matched as
      that literal; topics written as paths are handled as before. */
  function EventArmCorrected(e: EventInfo, typeMap: map<string, string>, parseType: string -> Option<Ty>): (r: Option<Arm>)
    ensures e.fromLiteral ==> r == Some(Arm(Lit(e.topic), RkyvToJson(GetResolvedType(e.dataType, typeMap, parseType))))
    ensures !e.fromLiteral ==> r == EventArm(e, typeMap, parseType)
  {
    if e.fromLiteral then Some(Arm(Lit(e.topic), RkyvToJson(GetResolvedType(e.dataType, typeMap, parseType))))
    else EventArm(e, typeMap, parseType)
  }

  /** `generate_decode_event_arms`, corrected. */
  function EventArmsCorrected(events: seq<EventInfo>, typeMap: map<string, string>, parseType: string -> Option<Ty>): seq<Arm> {
    FilterMap(events, (e: EventInfo) => EventArmCorrected(e, typeMap, parseType))
  }

  /** With every topic written as a literal, the corrected table decodes
      each emitted topic with the data type of the first event emitting it,
      and rejects every other name. */
  lemma LiteralTopicsDecode(events: seq<EventInfo>, typeMap: map<string, string>, parseType: string -> Option<Ty>,
                            topic: string, constOf: seq<string> -> string)
    requires forall i :: 0 <= i < |events| ==> events[i].fromLiteral
    ensures forall i :: 0 <= i < |events| && events[i].topic == topic &&
                        (forall j :: 0 <= j < i ==> events[j].topic != topic) ==>
              Call(EventArmsCorrected(events, typeMap, parseType), DecodeEventUnknown, topic, constOf) ==
              Ok(RkyvToJson(GetResolvedType(events[i].dataType, typeMap, parseType)))
    ensures (forall i :: 0 <= i < |events| ==> events[i].topic != topic) ==>
              Call(EventArmsCorrected(events, typeMap, parseType), DecodeEventUnknown, topic, constOf) ==
              Err(DecodeEventUnknown + topic)
  {
    var f := (e: EventInfo) => EventArmCorrected(e, typeMap, parseType);
    FilterMapTotal(events, f);
    var arms := EventArmsCorrected(events, typeMap, parseType);
    assert forall k :: 0 <= k < |arms| ==> arms[k].pattern == Lit(events[k].topic);
    forall i | 0 <= i < |events| && events[i].topic == topic && (forall j :: 0 <= j < i ==> events[j].topic != topic)
      ensures Dispatch(arms, topic, constOf) == Some(RkyvToJson(GetResolvedType(events[i].dataType, typeMap, parseType)))
    {
      assert FirstMatch(arms, topic, constOf, i);
      DispatchFirst(arms, topic, constOf, i);
    }
  }
}
