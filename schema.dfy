/** The contract schema the macro embeds as a constant, and its lookups. */
module Schema {
  import opened Common

  datatype FunctionSchema = FunctionSchema(name: string, doc: string, input: string, output: string, custom: bool)

  datatype EventSchema = EventSchema(topic: string, data: string)

  datatype ContractSchema = ContractSchema(name: string, functions: seq<FunctionSchema>, events: seq<EventSchema>)

  /** `iter_functions`: every function entry, in declaration order. */
  function IterFunctions(s: ContractSchema): seq<FunctionSchema> {
    s.functions
  }

  /** `iter_events`: every event entry, in declaration order. */
  function IterEvents(s: ContractSchema): seq<EventSchema> {
    s.events
  }

  /** Position `i` holds the first function named `name`. */
  predicate FirstFunctionNamed(fs: seq<FunctionSchema>, name: string, i: int) {
    0 <= i < |fs| && fs[i].name == name && forall j :: 0 <= j < i ==> fs[j].name != name
  }

  /** Position `i` holds the first event with topic `topic`. */
  predicate FirstEventWithTopic(es: seq<EventSchema>, topic: string, i: int) {
    0 <= i < |es| && es[i].topic == topic && forall j :: 0 <= j < i ==> es[j].topic != topic
  }

  function FindFunction(fs: seq<FunctionSchema>, name: string): (r: Option<nat>)
    ensures r.None? <==> forall i :: 0 <= i < |fs| ==> fs[i].name != name
    ensures r.Some? ==> FirstFunctionNamed(fs, name, r.value)
    decreases |fs|
  {
    if fs == [] then None
    else if fs[0].name == name then Some(0)
    else
      var r := FindFunction(fs[1..], name);
      assert forall i :: 1 <= i < |fs| ==> fs[i] == fs[1..][i - 1];
      if r.Some? then Some(r.value + 1) else None
  }

  function FindEvent(es: seq<EventSchema>, topic: string): (r: Option<nat>)
    ensures r.None? <==> forall i :: 0 <= i < |es| ==> es[i].topic != topic
    ensures r.Some? ==> FirstEventWithTopic(es, topic, r.value)
    decreases |es|
  {
    if es == [] then None
    else if es[0].topic == topic then Some(0)
    else
      var r := FindEvent(es[1..], topic);
      assert forall i :: 1 <= i < |es| ==> es[i] == es[1..][i - 1];
      if r.Some? then Some(r.value + 1) else None
  }

  /** `get_function`: the first function entry with that name, if any. */
  function GetFunction(s: ContractSchema, name: string): (r: Option<FunctionSchema>)
    ensures r.None? <==> forall i :: 0 <= i < |IterFunctions(s)| ==> IterFunctions(s)[i].name != name
    ensures r.Some? ==> (r.value.name == name &&
                         exists i :: FirstFunctionNamed(IterFunctions(s), name, i) && IterFunctions(s)[i] == r.value)
  {
    var i := FindFunction(s.functions, name);
    if i.Some? then
      assert IterFunctions(s)[i.value].name == name;
      Some(s.functions[i.value])
    else None
  }

  /** `get_event`: the first event entry with that topic, if any. */
  function GetEvent(s: ContractSchema, topic: string): (r: Option<EventSchema>)
    ensures r.None? <==> forall i :: 0 <= i < |IterEvents(s)| ==> IterEvents(s)[i].topic != topic
    ensures r.Some? ==> (r.value.topic == topic &&
                         exists i :: FirstEventWithTopic(IterEvents(s), topic, i) && IterEvents(s)[i] == r.value)
  {
    var i := FindEvent(s.events, topic);
    if i.Some? then
      assert IterEvents(s)[i.value].topic == topic;
      Some(s.events[i.value])
    else None
  }
}
