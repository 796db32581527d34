/** Which calls the extractor makes of decoded objects (internal/engine/coerce.go, pushWrapper), said on the fields of
    the objects and of the declared tools. */
module ToolCallNaming {
  import opened Options
  import opened GoStrings
  import opened ToolCallScan
  import opened ToolCallWrappers

  /** The wrapper's arguments are this object, as such or as a JSON string. */
  predicate Carries(inner: Fields, args: Fields, decode: Decoder) {
    "arguments" in inner &&
    match inner["arguments"]
    case Dict(m) => m == args
    case Text(s) => s != "" && decode(s) == Some(Dict(args))
    case _ => false
  }

  /** What the call gets: the arguments carried, or none at all if they are no object. */
  ghost predicate OwnArguments(inner: Fields, args: Fields, decode: Decoder) {
    Carries(inner, args, decode) || (args == map[] && !CarriesSome(inner, decode))
  }

  ghost predicate CarriesSome(inner: Fields, decode: Decoder) {
    exists args :: Carries(inner, args, decode)
  }

  /** The keys of the arguments that the tool declares as properties. */
  function Shared(tool: ToolSpec, args: Fields): set<string> {
    set key | key in args && "properties" in tool.parameters && tool.parameters["properties"].Dict?
              && key in tool.parameters["properties"].fields
  }

  /** Tool `k` is the first of those that share most keys with the arguments, at least one. */
  ghost predicate SharesMost(tools: seq<ToolSpec>, args: Fields, k: int) {
    && 0 <= k < |tools| && Shared(tools[k], args) != {}
    && (forall i :: 0 <= i < k ==> |Shared(tools[i], args)| < |Shared(tools[k], args)|)
    && (forall i :: k < i < |tools| ==> |Shared(tools[i], args)| <= |Shared(tools[k], args)|)
  }

  /** The schema has an object property or subschema of this JSON type under the key. */
  predicate TypedAt(m: Fields, key: string, kind: string) {
    key in m && m[key].Dict? && "type" in m[key].fields && m[key].fields["type"] == Text(kind)
  }

  predicate Lists(required: Any, field: string) {
    (required.List? && Text(field) in required.items) || (required.Names? && field in required.names)
  }

  /** A tool named `tool_call` that takes an object with a required string `name` and a required object `arguments`. */
  predicate IsDispatcher(tool: ToolSpec) {
    var p := tool.parameters;
    && tool.name == "tool_call" && "type" in p && p["type"] == Text("object")
    && "properties" in p && p["properties"].Dict?
    && TypedAt(p["properties"].fields, "name", "string") && TypedAt(p["properties"].fields, "arguments", "object")
    && "required" in p && Lists(p["required"], "name") && Lists(p["required"], "arguments")
  }

  /** A wrapper with an unknown name goes to the dispatcher: as the whole reply, with no other members, its arguments
      an object, and a dispatcher declared. */
  ghost predicate GoesToDispatcher(m: Fields, inner: Fields, tools: seq<ToolSpec>, decode: Decoder, whole: bool) {
    && whole && m.Keys == {"tool_call"} && inner.Keys == {"name", "arguments"} && CarriesSome(inner, decode)
    && exists i :: 0 <= i < |tools| && IsDispatcher(tools[i])
  }

  /** `c`, a name with arguments, is the call the object asks for. */
  ghost predicate Asks(m: Fields, c: (string, Fields), tools: seq<ToolSpec>, decode: Decoder, whole: bool) {
    && "tool_call" in m && m["tool_call"].Dict?
    && var inner := m["tool_call"].fields;
    && "name" in inner && inner["name"].Text? && inner["name"].text != ""
    && var name := inner["name"].text;
    if exists i :: 0 <= i < |tools| && tools[i].name == name then c.0 == name && OwnArguments(inner, c.1, decode)
    else if GoesToDispatcher(m, inner, tools, decode, whole) then
      && c.0 == "tool_call" && c.1.Keys == {"name", "arguments"} && c.1["name"] == Text(name)
      && c.1["arguments"].Dict? && Carries(inner, c.1["arguments"].fields, decode)
    else
      OwnArguments(inner, c.1, decode) && exists k :: SharesMost(tools, c.1, k) && c.0 == tools[k].name
  }

  // ---------------------------------------------------------------- one object

  lemma {:induction false} ArgumentsExactly(inner: Fields, decode: Decoder)
    ensures CarriesSome(inner, decode) <==> Arguments(inner, decode).Some?
    ensures forall args :: Carries(inner, args, decode) <==> Arguments(inner, decode) == Some(args)
  {
    forall args ensures Carries(inner, args, decode) <==> Arguments(inner, decode) == Some(args) {
    }
    if Arguments(inner, decode).Some? {
      assert Carries(inner, Arguments(inner, decode).value, decode);
    }
  }

  lemma {:induction false} ScoreIsShared(tool: ToolSpec, args: Fields)
    ensures Score(args, tool) == |Shared(tool, args)|
  {
    match DictAt(tool.parameters, "properties")
    case None => assert Shared(tool, args) == {};
    case Some(props) => assert Shared(tool, args) == args.Keys * props.Keys;
  }

  lemma {:induction false} BestSharesMost(tools: seq<ToolSpec>, args: Fields)
    ensures forall k :: SharesMost(tools, args, k) <==> k >= 0 && BestTool(args, tools) == Some(k)
    ensures BestTool(args, tools).None? <==> forall i :: 0 <= i < |tools| ==> Shared(tools[i], args) == {}
  {
    var scores := Scores(args, tools);
    forall i | 0 <= i < |tools| ensures scores[i] == |Shared(tools[i], args)| {
      ScoreIsShared(tools[i], args);
    }
    hide Shared, Score, Best;
    forall k ensures SharesMost(tools, args, k) <==> k >= 0 && BestTool(args, tools) == Some(k) {
      assert SharesMost(tools, args, k) <==> IsBest(scores, k);
      if IsBest(scores, k) {
        BestIsUnique(scores, k);
      }
    }
  }

  lemma {:induction false} DispatcherExactly(tools: seq<ToolSpec>)
    ensures HasDispatcher(tools) <==> exists i :: 0 <= i < |tools| && IsDispatcher(tools[i])
  {
    forall i | 0 <= i < |tools|
      ensures IsDispatcher(tools[i]) <==> tools[i].name == TOOL_CALL && IsDispatcherSchema(tools[i].parameters)
    {
    }
  }

  lemma {:induction false} EnvelopeExactly(m: Fields, inner: Fields)
    requires TOOL_CALL in m
    ensures IsExactEnvelope(m, inner) <==> m.Keys == {"tool_call"} && inner.Keys == {"name", "arguments"}
  {
    SizeOne(m);
    if "name" in inner && "arguments" in inner {
      SizeTwo(inner);
    }
  }

  lemma {:induction false} SizeOne(m: Fields)
    requires TOOL_CALL in m
    ensures |m| == 1 <==> m.Keys == {TOOL_CALL}
  {
    assert |m.Keys - {TOOL_CALL}| == |m| - 1;
  }

  lemma {:induction false} SizeTwo(m: Fields)
    requires "name" in m && "arguments" in m
    ensures |m| == 2 <==> m.Keys == {"name", "arguments"}
  {
    assert "name" != "arguments";
    assert |m.Keys - {"name", "arguments"}| == |m| - 2;
  }

  /** The parts of an object that decide, for one with a wrapper and a name. */
  predicate Named(m: Fields, inner: Fields, name: string) {
    "tool_call" in m && m["tool_call"] == Dict(inner) && "name" in inner && inner["name"] == Text(name) && name != ""
  }

  lemma {:induction false} NamedExactly(m: Fields, inner: Fields, name: string)
    ensures Named(m, inner, name) <==>
            IsWrapper(m) && inner == Inner(m) && name == TextAt(Inner(m), "name") && name != ""
  {
  }

  lemma {:induction false} OwnArgumentsExactly(inner: Fields, args: Fields, decode: Decoder)
    ensures
      var parsed := Arguments(inner, decode);
      OwnArguments(inner, args, decode) <==> args == (if parsed.Some? then parsed.value else map[])
  {
    hide Carries, Arguments;
    ArgumentsExactly(inner, decode);
  }

  lemma {:induction false} DispatchedExactly(inner: Fields, name: string, args: Fields, decode: Decoder)
    requires Arguments(inner, decode).Some?
    ensures
      args == Dispatched(name, Arguments(inner, decode).value) <==>
        && args.Keys == {"name", "arguments"} && args["name"] == Text(name)
        && args["arguments"].Dict? && Carries(inner, args["arguments"].fields, decode)
  {
    hide Carries, Arguments;
    ArgumentsExactly(inner, decode);
    assert "name" != "arguments";
  }

  lemma {:induction false} GoesExactly(m: Fields, inner: Fields, tools: seq<ToolSpec>, decode: Decoder, whole: bool)
    requires TOOL_CALL in m
    ensures GoesToDispatcher(m, inner, tools, decode, whole) <==>
            whole && Arguments(inner, decode).Some? && IsExactEnvelope(m, inner) && HasDispatcher(tools)
  {
    hide CarriesSome, Arguments, HasDispatcher, IsDispatcher;
    ArgumentsExactly(inner, decode);
    EnvelopeExactly(m, inner);
    DispatcherExactly(tools);
  }

  lemma {:induction false} OfferedAsks(
    m: Fields, inner: Fields, name: string, c: (string, Fields), tools: seq<ToolSpec>, decode: Decoder, whole: bool)
    requires Named(m, inner, name) && Offered(tools, name)
    ensures Resolve(m, tools, decode, whole) == Some(c) <==> Asks(m, c, tools, decode, whole)
  {
    hide Carries, Arguments, HasDispatcher, GoesToDispatcher, OwnArguments, SharesMost, BestTool, IsExactEnvelope;
    NamedExactly(m, inner, name);
    OwnArgumentsExactly(inner, c.1, decode);
  }

  lemma {:induction false} DispatchedAsks(
    m: Fields, inner: Fields, name: string, c: (string, Fields), tools: seq<ToolSpec>, decode: Decoder, whole: bool)
    requires Named(m, inner, name) && !Offered(tools, name) && GoesToDispatcher(m, inner, tools, decode, whole)
    ensures Resolve(m, tools, decode, whole) == Some(c) <==> Asks(m, c, tools, decode, whole)
  {
    hide Carries, Arguments, HasDispatcher, GoesToDispatcher, OwnArguments, SharesMost, BestTool, IsExactEnvelope;
    hide Dispatched;
    NamedExactly(m, inner, name);
    GoesExactly(m, inner, tools, decode, whole);
    DispatchedExactly(inner, name, c.1, decode);
  }

  lemma {:induction false} UnknownAsks(
    m: Fields, inner: Fields, name: string, c: (string, Fields), tools: seq<ToolSpec>, decode: Decoder, whole: bool)
    requires Named(m, inner, name) && !Offered(tools, name) && !GoesToDispatcher(m, inner, tools, decode, whole)
    ensures Resolve(m, tools, decode, whole) == Some(c) <==> Asks(m, c, tools, decode, whole)
  {
    hide Carries, Arguments, HasDispatcher, GoesToDispatcher, OwnArguments, SharesMost, BestTool, IsExactEnvelope;
    NamedExactly(m, inner, name);
    OwnArgumentsExactly(inner, c.1, decode);
    GoesExactly(m, inner, tools, decode, whole);
    BestSharesMost(tools, c.1);
  }

  /** The extractor turns an object into a call if and only if the object asks for it. */
  lemma {:induction false} CallIsWhatTheObjectAsks(
    m: Fields, c: (string, Fields), tools: seq<ToolSpec>, decode: Decoder, whole: bool)
    ensures Resolve(m, tools, decode, whole) == Some(c) <==> Asks(m, c, tools, decode, whole)
  {
    if IsWrapper(m) && TextAt(Inner(m), "name") != "" {
      hide Resolve, Asks, GoesToDispatcher, Offered;
      var inner, name := Inner(m), TextAt(Inner(m), "name");
      NamedExactly(m, inner, name);
      if Offered(tools, name) {
        OfferedAsks(m, inner, name, c, tools, decode, whole);
      } else if GoesToDispatcher(m, inner, tools, decode, whole) {
        DispatchedAsks(m, inner, name, c, tools, decode, whole);
      } else {
        UnknownAsks(m, inner, name, c, tools, decode, whole);
      }
    } else {
      NoName(m, c, tools, decode, whole);
    }
  }

  lemma {:induction false} NoName(m: Fields, c: (string, Fields), tools: seq<ToolSpec>, decode: Decoder, whole: bool)
    requires !(IsWrapper(m) && TextAt(Inner(m), "name") != "")
    ensures Resolve(m, tools, decode, whole).None? && !Asks(m, c, tools, decode, whole)
  {
    hide Carries, Arguments, HasDispatcher, GoesToDispatcher, OwnArguments, SharesMost, BestTool, IsExactEnvelope;
  }

  ghost predicate AsksNothing(m: Fields, tools: seq<ToolSpec>, decode: Decoder, whole: bool) {
    forall c :: !Asks(m, c, tools, decode, whole)
  }

  lemma {:induction false} NoCallIfNothingAsked(m: Fields, tools: seq<ToolSpec>, decode: Decoder, whole: bool)
    ensures Resolve(m, tools, decode, whole).None? <==> AsksNothing(m, tools, decode, whole)
  {
    hide Resolve, Asks;
    forall c: (string, Fields)
      ensures Resolve(m, tools, decode, whole) == Some(c) <==> Asks(m, c, tools, decode, whole)
    {
      CallIsWhatTheObjectAsks(m, c, tools, decode, whole);
    }
    if Resolve(m, tools, decode, whole).Some? {
      assert Asks(m, Resolve(m, tools, decode, whole).value, tools, decode, whole);
    }
  }

  // ---------------------------------------------------------------- a tier of objects

  /** `from[i]` is the object that asked for call `i`; the calls stand in the order of the objects, and the objects
      not among them ask for nothing. */
  ghost predicate CallsAskedBy(
    calls: seq<ToolCall>, from: seq<nat>, cands: seq<Fields>, tools: seq<ToolSpec>, decode: Decoder, whole: bool)
  {
    && |calls| == |from|
    && (forall i, j :: 0 <= i < j < |from| ==> from[i] < from[j])
    && (forall i :: 0 <= i < |from| ==>
          from[i] < |cands| && Asks(cands[from[i]], (calls[i].name, calls[i].arguments), tools, decode, whole))
    && (forall k :: 0 <= k < |cands| && k !in from ==> AsksNothing(cands[k], tools, decode, whole))
  }

  lemma {:induction false} TierCalls(
    cands: seq<Fields>, tools: seq<ToolSpec>, decode: Decoder, whole: bool, clock: nat -> nat) returns (from: seq<nat>)
    ensures CallsAskedBy(Push(cands, tools, decode, whole, clock), from, cands, tools, decode, whole)
    decreases |cands|
  {
    if cands == [] {
      PushNone(tools, decode, whole, clock);
      from := [];
    } else {
      hide Resolve, Asks, AsksNothing, Push, MintId, CallsAskedBy;
      var n := |cands| - 1;
      assert cands[..n + 1] == cands == cands[..n] + [cands[n]];
      PushOne(cands, n, tools, decode, whole, clock);
      from := TierCalls(cands[..n], tools, decode, whole, clock);
      NoCallIfNothingAsked(cands[n], tools, decode, whole);
      var calls := Push(cands[..n], tools, decode, whole, clock);
      if Resolve(cands[n], tools, decode, whole).Some? {
        var c := Resolve(cands[n], tools, decode, whole).value;
        CallIsWhatTheObjectAsks(cands[n], c, tools, decode, whole);
        AskedLast(calls, from, cands[..n], cands[n], ToolCall(MintId(clock, |calls|), c.0, c.1), tools, decode, whole);
        from := from + [n];
      } else {
        NothingAskedLast(calls, from, cands[..n], cands[n], tools, decode, whole);
      }
    }
  }

  lemma {:induction false} AskedLast(
    calls: seq<ToolCall>, from: seq<nat>, cands: seq<Fields>, m: Fields, call: ToolCall, tools: seq<ToolSpec>,
    decode: Decoder, whole: bool)
    requires CallsAskedBy(calls, from, cands, tools, decode, whole)
    requires Asks(m, (call.name, call.arguments), tools, decode, whole)
    ensures CallsAskedBy(calls + [call], from + [|cands|], cands + [m], tools, decode, whole)
  {
    hide Asks, AsksNothing;
    var all, later := cands + [m], from + [|cands|];
    assert later[|from|] == |cands| && forall i :: 0 <= i < |from| ==> later[i] == from[i];
    forall k | 0 <= k < |all| && k !in later ensures AsksNothing(all[k], tools, decode, whole) {
      assert k !in from;
    }
  }

  lemma {:induction false} NothingAskedLast(
    calls: seq<ToolCall>, from: seq<nat>, cands: seq<Fields>, m: Fields, tools: seq<ToolSpec>, decode: Decoder,
    whole: bool)
    requires CallsAskedBy(calls, from, cands, tools, decode, whole) && AsksNothing(m, tools, decode, whole)
    ensures CallsAskedBy(calls, from, cands + [m], tools, decode, whole)
  {
    hide Asks, AsksNothing;
  }

  /** The calls of an extraction: those the objects of the whole reply ask for, or if these ask for nothing, those the
      objects found in the text ask for, in order, each under its own id. */
  lemma {:induction false} ExtractionIsWhatIsAsked(
    text: string, tools: seq<ToolSpec>, decode: Decoder, clock: nat -> nat) returns (whole: bool, from: seq<nat>)
    requires Extraction(text, tools, decode, clock).Done?
    ensures
      var calls, first := Extraction(text, tools, decode, clock).value, Candidates(Whole(text, decode).value);
      && CallsAskedBy(calls, from, if whole then first else Embedded(text, decode), tools, decode, whole)
      && (whole <==> exists k :: 0 <= k < |first| && !AsksNothing(first[k], tools, decode, true))
  {
    hide Push, Asks, AsksNothing, Whole, Candidates, Embedded;
    var first := Candidates(Whole(text, decode).value);
    from := TierCalls(first, tools, decode, true, clock);
    var calls := Push(first, tools, decode, true, clock);
    whole := calls != [];
    if whole {
      AskedIsSomething(first[from[0]], (calls[0].name, calls[0].arguments), tools, decode, true);
    } else {
      from := TierCalls(Embedded(text, decode), tools, decode, false, clock);
    }
  }

  lemma {:induction false} AskedIsSomething(
    m: Fields, c: (string, Fields), tools: seq<ToolSpec>, decode: Decoder, whole: bool)
    requires Asks(m, c, tools, decode, whole)
    ensures !AsksNothing(m, tools, decode, whole)
  {
  }

  // ---------------------------------------------------------------- an unknown name

  /** Objects without a wrapper leave no trace. */
  lemma {:induction false} PushOfWrappers(
    cands: seq<Fields>, tools: seq<ToolSpec>, decode: Decoder, whole: bool, clock: nat -> nat)
    ensures Push(cands, tools, decode, whole, clock) == Push(Wrappers(cands), tools, decode, whole, clock)
    decreases |cands|
  {
    if cands == [] {
      assert Wrappers(cands) == [];
    } else {
      hide Push, MintId, Wrappers, IsWrapper;
      var n := |cands| - 1;
      assert cands[..n + 1] == cands;
      PushOfWrappers(cands[..n], tools, decode, whole, clock);
      PushOne(cands, n, tools, decode, whole, clock);
      WrappersSnoc(cands, n);
      var ws, before := Wrappers(cands), Wrappers(cands[..n]);
      if IsWrapper(cands[n]) {
        assert ws == before + [cands[n]];
        assert ws[..|before|] == before && ws[..|before| + 1] == ws;
        PushOne(ws, |before|, tools, decode, whole, clock);
      }
    }
  }

  lemma {:induction false} OneWrapper(
    m: Fields, tools: seq<ToolSpec>, decode: Decoder, whole: bool, clock: nat -> nat)
    ensures Push([m], tools, decode, whole, clock)
         == match Resolve(m, tools, decode, whole)
            case None => []
            case Some(c) => [ToolCall(MintId(clock, 0), c.0, c.1)]
  {
    hide Resolve, MintId;
    assert [m][..0] == [];
    PushNone(tools, decode, whole, clock);
  }

  /** An unknown name without a dispatcher: the call, if any, of the best match. */
  lemma {:induction false} UnknownNameResolves(
    m: Fields, inner: Fields, name: string, args: Fields, tools: seq<ToolSpec>, decode: Decoder, whole: bool)
    requires Named(m, inner, name) && OwnArguments(inner, args, decode)
    requires !GoesToDispatcher(m, inner, tools, decode, whole)
    requires forall i :: 0 <= i < |tools| ==> tools[i].name != name
    ensures
      match Resolve(m, tools, decode, whole)
      case None => forall i :: 0 <= i < |tools| ==> Shared(tools[i], args) == {}
      case Some(c) => c.1 == args && exists k :: SharesMost(tools, args, k) && c.0 == tools[k].name
  {
    hide Carries, Arguments, HasDispatcher, GoesToDispatcher, OwnArguments, SharesMost, BestTool, IsExactEnvelope;
    hide Shared;
    NamedExactly(m, inner, name);
    OwnArgumentsExactly(inner, args, decode);
    GoesExactly(m, inner, tools, decode, whole);
    BestSharesMost(tools, args);
    if BestTool(args, tools).Some? {
      assert SharesMost(tools, args, BestTool(args, tools).value);
    }
  }

  /** A reply whose only wrapper has a name that is not offered and does not go to the dispatcher: there is a call if
      and only if some tool declares a property that is a key of the wrapper's arguments; then it is the only one,
      goes to the first tool that shares most keys, and has the wrapper's own arguments. */
  lemma {:induction false} UnknownNameGoesToBestMatch(
    text: string, tools: seq<ToolSpec>, decode: Decoder, clock: nat -> nat,
    m: Fields, inner: Fields, name: string, args: Fields)
    requires Whole(text, decode).Done?
    requires
      var first, second := Candidates(Whole(text, decode).value), Embedded(text, decode);
      && (Wrappers(first) == [m] || (Wrappers(first) == [] && Wrappers(second) == [m]))
      && (Wrappers(second) == [m] || Wrappers(second) == [])
      && !GoesToDispatcher(m, inner, tools, decode, Wrappers(first) == [m])
    requires Named(m, inner, name) && OwnArguments(inner, args, decode)
    requires forall i :: 0 <= i < |tools| ==> tools[i].name != name
    ensures
      var r := Extraction(text, tools, decode, clock);
      if exists i, key :: 0 <= i < |tools| && key in Shared(tools[i], args) then
        exists k :: SharesMost(tools, args, k) && r == Done([ToolCall(MintId(clock, 0), tools[k].name, args)])
      else r == Done([])
  {
    hide Push, Resolve, Whole, Candidates, Embedded, Wrappers, GoesToDispatcher, OwnArguments, MintId, Shared, Named;
    hide SharesMost;
    var first, second := Candidates(Whole(text, decode).value), Embedded(text, decode);
    var whole := Wrappers(first) == [m];
    NeverFromProse(m, inner, tools, decode);
    UnknownNameResolves(m, inner, name, args, tools, decode, whole);
    UnknownNameResolves(m, inner, name, args, tools, decode, false);
    PushOfWrappers(first, tools, decode, true, clock);
    PushOfWrappers(second, tools, decode, false, clock);
    PushNone(tools, decode, true, clock);
    PushNone(tools, decode, false, clock);
    OneWrapper(m, tools, decode, whole, clock);
    OneWrapper(m, tools, decode, false, clock);
    MostIsSome(tools, args);
  }

  lemma {:induction false} NeverFromProse(m: Fields, inner: Fields, tools: seq<ToolSpec>, decode: Decoder)
    ensures !GoesToDispatcher(m, inner, tools, decode, false)
  {
  }

  lemma {:induction false} MostIsSome(tools: seq<ToolSpec>, args: Fields)
    ensures forall k :: SharesMost(tools, args, k) ==>
      0 <= k < |tools| && exists key :: key in Shared(tools[k], args)
  {
    hide Shared;
    forall k | SharesMost(tools, args, k) ensures exists key :: key in Shared(tools[k], args) {
      var key :| key in Shared(tools[k], args);
    }
  }

  // ---------------------------------------------------------------- a bare arguments object

  /** A reply without calls of its own that is, raw or fenced, one JSON object: it is a call if and only if some tool
      declares a property that is a key of it; then of the first tool that shares most keys, with the object as its
      arguments. Any other reply is no call. */
  lemma {:induction false} BareArgumentsGoToBestMatch(
    text: string, tools: seq<ToolSpec>, decode: Decoder, clock: nat -> nat, now: nat)
    requires TrimSpace(text) != "" && Extraction(text, tools, decode, clock) == Done([])
    ensures
      var r, whole := Recovered(text, tools, decode, clock, now), Whole(text, decode);
      && whole.Done?
      && if whole.value.Some? && whole.value.value.Dict?
            && exists i, key :: 0 <= i < |tools| && key in Shared(tools[i], whole.value.value.fields)
         then
           var args := whole.value.value.fields;
           exists k :: SharesMost(tools, args, k) && r == Done([ToolCall("call_" + Decimal(now), tools[k].name, args)])
         else r == Done([])
  {
    hide Push, Whole, Candidates, Embedded, Shared, SharesMost, Decimal, TrimSpace, BestTool;
    var whole := Whole(text, decode);
    if whole.value.Some? && whole.value.value.Dict? {
      var args := whole.value.value.fields;
      BestSharesMost(tools, args);
      MostIsSome(tools, args);
      if BestTool(args, tools).Some? {
        assert SharesMost(tools, args, BestTool(args, tools).value);
      }
    }
  }
}
