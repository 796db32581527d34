/** Tool calls recovered from reply text: the read-only classifier, the extractor, and the rewrite
    of a response (internal/engine/coerce.go). The JSON decoder and the clock are arguments. */
module ToolCallWrappers {
  import opened Options
  import opened GoStrings
  import opened Fences
  import opened ToolCallScan
  import opened ToolCallExtract

  /** A decoded JSON value. `Names` is a list of strings that Go code put into a schema; decoding gives
      `List`. */
  datatype Any =
    | Null
    | Boolean(flag: bool)
    | Numeral(digits: string)
    | Text(text: string)
    | List(items: seq<Any>)
    | Names(names: seq<string>)
    | Dict(fields: Fields)

  type Fields = map<string, Any>
  type Decoder = string -> Option<Any>

  datatype ToolSpec = ToolSpec(name: string, parameters: Fields)
  datatype ToolCall = ToolCall(id: string, name: string, arguments: Fields)

  /** A call that may panic. */
  datatype Outcome<+T> = Panicked | Done(value: T)

  datatype Disposition = WrapperNone | Direct | DispatcherExact | DispatcherEmbedded | Malformed

  // ---------------------------------------------------------------- schemas and envelopes

  function DictAt(m: Fields, key: string): Option<Fields> {
    if key in m && m[key].Dict? then Some(m[key].fields) else None
  }

  function TextAt(m: Fields, key: string): string {
    if key in m && m[key].Text? then m[key].text else ""
  }

  predicate SchemaRequires(m: Fields, field: string) {
    "required" in m &&
    match m["required"]
    case List(items) => Text(field) in items
    case Names(names) => field in names
    case _ => false
  }

  predicate IsDispatcherSchema(m: Fields) {
    && TextAt(m, "type") == "object"
    && DictAt(m, "properties").Some?
    && var props := DictAt(m, "properties").value;
    && DictAt(props, "name").Some? && TextAt(DictAt(props, "name").value, "type") == "string"
    && DictAt(props, "arguments").Some? && TextAt(DictAt(props, "arguments").value, "type") == "object"
    && SchemaRequires(m, "name") && SchemaRequires(m, "arguments")
  }

  predicate HasDispatcher(tools: seq<ToolSpec>) {
    exists i :: 0 <= i < |tools| && tools[i].name == TOOL_CALL && IsDispatcherSchema(tools[i].parameters)
  }

  predicate Offered(tools: seq<ToolSpec>, name: string) {
    exists i :: 0 <= i < |tools| && tools[i].name == name
  }

  predicate IsExactEnvelope(outer: Fields, inner: Fields) {
    |outer| == 1 && |inner| == 2 && "name" in inner && "arguments" in inner
  }

  // ---------------------------------------------------------------- picking a tool by its keys

  /** How many keys of the arguments are declared properties of the tool. */
  function Score(args: Fields, tool: ToolSpec): nat {
    match DictAt(tool.parameters, "properties")
    case None => 0
    case Some(props) => |args.Keys * props.Keys|
  }

  function Scores(args: Fields, tools: seq<ToolSpec>): seq<nat> {
    seq(|tools|, i requires 0 <= i < |tools| => Score(args, tools[i]))
  }

  /** `k` is the first index with the highest score, and that score is positive. */
  ghost predicate IsBest(scores: seq<nat>, k: int) {
    && 0 <= k < |scores| && scores[k] > 0
    && (forall i :: 0 <= i < k ==> scores[i] < scores[k])
    && (forall i :: k <= i < |scores| ==> scores[i] <= scores[k])
  }

  function Best(scores: seq<nat>): (r: Option<nat>)
    ensures r.Some? ==> IsBest(scores, r.value)
    ensures r.None? ==> forall i :: 0 <= i < |scores| ==> scores[i] == 0
  {
    if scores == [] then None
    else
      var n := |scores| - 1;
      match Best(scores[..n])
      case None => if scores[n] > 0 then Some(n) else None
      case Some(k) => if scores[n] > scores[k] then Some(n) else Some(k)
  }

  function BestTool(args: Fields, tools: seq<ToolSpec>): (r: Option<nat>)
    ensures r.Some? ==> r.value < |tools| && IsBest(Scores(args, tools), r.value)
    ensures r.None? ==> forall i :: 0 <= i < |tools| ==> Scores(args, tools)[i] == 0
  {
    Best(Scores(args, tools))
  }

  lemma {:induction false} BestIsUnique(scores: seq<nat>, k: int)
    requires IsBest(scores, k)
    ensures Best(scores) == Some(k)
  {
  }

  method PickBestTool(parsed: Fields, tools: seq<ToolSpec>) returns (bestIdx: int, bestScore: nat)
    ensures bestIdx < 0 ==> bestScore == 0 && forall i :: 0 <= i < |tools| ==> Scores(parsed, tools)[i] == 0
    ensures bestIdx >= 0 ==> IsBest(Scores(parsed, tools), bestIdx) && bestScore == Scores(parsed, tools)[bestIdx]
    ensures BestTool(parsed, tools) == if bestIdx < 0 then None else Some(bestIdx)
  {
    hide Score;
    ghost var scores := Scores(parsed, tools);
    bestIdx, bestScore := -1, 0;
    for i := 0 to |tools|
      invariant -1 <= bestIdx < i
      invariant bestIdx < 0 ==> bestScore == 0 && forall k :: 0 <= k < i ==> scores[k] == 0
      invariant bestIdx >= 0 ==> IsBest(scores[..i], bestIdx) && bestScore == scores[bestIdx]
    {
      var score := ScoreTool(parsed, tools[i]);
      assert score == scores[i];
      if score > bestScore {
        bestScore := score;
        bestIdx := i;
      }
    }
    assert scores[..|tools|] == scores;
    if bestIdx >= 0 {
      BestIsUnique(scores, bestIdx);
    }
  }

  method ScoreTool(parsed: Fields, tool: ToolSpec) returns (score: nat)
    ensures score == Score(parsed, tool)
  {
    var props := DictAt(tool.parameters, "properties");
    if props.None? || |props.value| == 0 {
      return 0;
    }
    score := CountShared(parsed.Keys, props.value.Keys);
  }

  /** The loop over the keys of the parsed object. */
  method CountShared(keys: set<string>, props: set<string>) returns (score: nat)
    ensures score == |keys * props|
  {
    score := 0;
    var todo, seen := keys, {};
    while todo != {}
      invariant todo + seen == keys && todo !! seen
      invariant score == |seen * props|
      decreases |todo|
    {
      var key :| key in todo;
      if key in props {
        score := score + 1;
        assert (seen + {key}) * props == seen * props + {key};
      } else {
        assert (seen + {key}) * props == seen * props;
      }
      todo, seen := todo - {key}, seen + {key};
    }
    assert seen == keys;
  }

  // ---------------------------------------------------------------- candidates

  function TryParse(decode: Decoder): string -> Option<Fields> {
    s => match decode(s) case Some(Dict(m)) => Some(m) case _ => None
  }

  /** The text decoded as a whole: raw, else without its fence. */
  function Whole(text: string, decode: Decoder): Outcome<Option<Any>> {
    match decode(text)
    case Some(v) => Done(Some(v))
    case None =>
      match StripFences(text)
      case Stripped(inner) => Done(decode(inner))
      case NoFence(_) => Done(None)
      case CrossedBounds => Panicked
  }

  function Dicts(items: seq<Any>): seq<Fields> {
    if items == [] then []
    else (if items[0].Dict? then [items[0].fields] else []) + Dicts(items[1..])
  }

  function Candidates(whole: Option<Any>): seq<Fields> {
    match whole
    case Some(Dict(m)) => [m]
    case Some(List(items)) => Dicts(items)
    case _ => []
  }

  function Embedded(text: string, decode: Decoder): seq<Fields> {
    ToolCallObjects(text, TryParse(decode))
  }

  predicate IsWrapper(m: Fields) {
    DictAt(m, TOOL_CALL).Some?
  }

  function Inner(m: Fields): Fields
    requires IsWrapper(m)
  {
    DictAt(m, TOOL_CALL).value
  }

  /** The candidates that carry a `tool_call` object. */
  function Wrappers(cands: seq<Fields>): (r: seq<Fields>)
    ensures forall i :: 0 <= i < |r| ==> IsWrapper(r[i])
  {
    if cands == [] then []
    else (if IsWrapper(cands[0]) then [cands[0]] else []) + Wrappers(cands[1..])
  }

  function Arguments(inner: Fields, decode: Decoder): Option<Fields> {
    if "arguments" !in inner then None
    else
      match inner["arguments"]
      case Dict(m) => Some(m)
      case Text(s) => if s == "" then None else TryParse(decode)(s)
      case _ => None
  }

  // ---------------------------------------------------------------- the classifier

  function Current(m: Fields, tools: seq<ToolSpec>, decode: Decoder, embedded: bool): (d: Disposition)
    requires IsWrapper(m)
    ensures d != WrapperNone
  {
    var name := TextAt(Inner(m), "name");
    if name != "" && Offered(tools, name) then Direct
    else if name != "" && Arguments(Inner(m), decode).Some? && IsExactEnvelope(m, Inner(m)) && HasDispatcher(tools) then
      if embedded then DispatcherEmbedded else DispatcherExact
    else Malformed
  }

  /** All wrappers agree, and an embedded tier has exactly one. */
  function Classification(cands: seq<Fields>, tools: seq<ToolSpec>, decode: Decoder, embedded: bool): Disposition {
    var ws := Wrappers(cands);
    if ws == [] then WrapperNone
    else if embedded && |ws| != 1 then Malformed
    else if
      forall i :: 0 <= i < |ws| ==>
        Current(ws[i], tools, decode, embedded) == Current(ws[0], tools, decode, embedded)
    then Current(ws[0], tools, decode, embedded)
    else Malformed
  }

  lemma {:induction false} WrappersConcat(a: seq<Fields>, b: seq<Fields>)
    ensures Wrappers(a + b) == Wrappers(a) + Wrappers(b)
    decreases |a|
  {
    if a == [] {
      assert a + b == b;
    } else {
      assert (a + b)[1..] == a[1..] + b;
      WrappersConcat(a[1..], b);
    }
  }

  lemma {:induction false} WrappersSnoc(cands: seq<Fields>, i: nat)
    requires i < |cands|
    ensures Wrappers(cands[..i + 1]) == Wrappers(cands[..i]) + (if IsWrapper(cands[i]) then [cands[i]] else [])
    ensures |Wrappers(cands[..i + 1])| <= |Wrappers(cands)|
    ensures Wrappers(cands[..i + 1]) == Wrappers(cands)[..|Wrappers(cands[..i + 1])|]
  {
    assert cands[..i + 1] == cands[..i] + [cands[i]];
    WrappersConcat(cands[..i], [cands[i]]);
    assert Wrappers([cands[i]]) == (if IsWrapper(cands[i]) then [cands[i]] else []) + Wrappers([]);
    assert cands == cands[..i + 1] + cands[i + 1..];
    WrappersConcat(cands[..i + 1], cands[i + 1..]);
  }

  method Classify(cands: seq<Fields>, tools: seq<ToolSpec>, decode: Decoder, embedded: bool)
    returns (disposition: Disposition)
    ensures disposition == Classification(cands, tools, decode, embedded)
  {
    disposition := WrapperNone;
    var wrappers := 0;
    for i := 0 to |cands|
      invariant wrappers == |Wrappers(cands[..i])|
      invariant wrappers == 0 <==> disposition == WrapperNone
      invariant forall k :: 0 <= k < wrappers ==>
          Current(Wrappers(cands[..i])[k], tools, decode, embedded) == disposition
    {
      WrappersSnoc(cands, i);
      if !IsWrapper(cands[i]) {
        continue;
      }
      wrappers := wrappers + 1;
      var current := Current(cands[i], tools, decode, embedded);
      if disposition == WrapperNone {
        disposition := current;
      } else if disposition != current {
        ghost var ws, seen := Wrappers(cands), Wrappers(cands[..i + 1]);
        assert ws[0] == seen[0] && ws[wrappers - 1] == seen[wrappers - 1];
        return Malformed;
      }
    }
    assert cands[..|cands|] == cands;
    if embedded && wrappers > 1 {
      disposition := Malformed;
    }
  }

  predicate Contains(s: string, p: string) {
    exists i :: 0 <= i <= |s| && HasPrefix(s[i..], p)
  }

  function WholeForObserver(text: string, decode: Decoder): Outcome<Option<Any>> {
    if |text| <= MAX_SCAN_BYTES then Whole(text, decode) else Done(None)
  }

  function Observation(text: string, tools: seq<ToolSpec>, decode: Decoder): Outcome<Disposition> {
    match WholeForObserver(text, decode)
    case Panicked => Panicked
    case Done(whole) =>
      var first := Classification(Candidates(whole), tools, decode, false);
      var second := Classification(Embedded(text, decode), tools, decode, true);
      Done(if first != WrapperNone then first
           else if second != WrapperNone then second
           else if Contains(ScanPrefix(text), "{\"tool_call\"") then Malformed
           else WrapperNone)
  }

  /** Decoding a reply as a whole panics exactly when it does not decode and is a shared-newline fence. */
  lemma {:induction false} WholePanicsExactly(text: string, decode: Decoder)
    ensures Whole(text, decode).Panicked? <==> decode(text).None? && SharedNewline(text)
  {
    hide StripFences, SharedNewline;
    PanicsExactlyOnSharedNewline(text);
  }

  /** The observer looks at the whole reply only up to the scan budget. */
  lemma {:induction false} ObserverPanicsExactly(text: string, tools: seq<ToolSpec>, decode: Decoder)
    ensures Observation(text, tools, decode).Panicked? <==>
            |text| <= MAX_SCAN_BYTES && decode(text).None? && SharedNewline(text)
  {
    hide Whole, SharedNewline, Classification, Embedded;
    WholePanicsExactly(text, decode);
  }

  method ObserveToolCallWrappers(text: string, tools: seq<ToolSpec>, decode: Decoder)
    returns (r: Outcome<Disposition>)
    ensures r == Observation(text, tools, decode)
  {
    var whole := WholeForObserver(text, decode);
    if whole.Panicked? {
      return Panicked;
    }
    var disposition := Classify(Candidates(whole.value), tools, decode, false);
    if disposition != WrapperNone {
      return Done(disposition);
    }
    var objects := ExtractToolCallObjects(text, TryParse(decode));
    disposition := Classify(objects, tools, decode, true);
    if disposition != WrapperNone {
      return Done(disposition);
    }
    r := Done(if Contains(ScanPrefix(text), "{\"tool_call\"") then Malformed else WrapperNone);
  }

  // ---------------------------------------------------------------- the extractor

  /** What a candidate is turned into, apart from its id. */
  function Resolve(
    m: Fields, tools: seq<ToolSpec>, decode: Decoder, allowDispatcher: bool): (r: Option<(string, Fields)>)
    ensures r.Some? ==> IsWrapper(m) && Offered(tools, r.value.0)
  {
    if !IsWrapper(m) || TextAt(Inner(m), "name") == "" then None
    else
      var name := TextAt(Inner(m), "name");
      var parsed := Arguments(Inner(m), decode);
      var args := if parsed.Some? then parsed.value else map[];
      if Offered(tools, name) then Some((name, args))
      else if allowDispatcher && parsed.Some? && IsExactEnvelope(m, Inner(m)) && HasDispatcher(tools) then
        Some((TOOL_CALL, Dispatched(name, args)))
      else
        match BestTool(args, tools)
        case None => None
        case Some(k) => Some((tools[k].name, args))
  }

  function Dispatched(name: string, args: Fields): Fields {
    map["name" := Text(name), "arguments" := Dict(args)]
  }

  /** The id minted for the `n`-th call of one extraction. */
  function MintId(clock: nat -> nat, n: nat): string {
    "call_" + Decimal(clock(n)) + "_" + Decimal(n)
  }

  function Push(
    cands: seq<Fields>, tools: seq<ToolSpec>, decode: Decoder, allow: bool, clock: nat -> nat): seq<ToolCall>
  {
    if cands == [] then []
    else
      var n := |cands| - 1;
      var calls := Push(cands[..n], tools, decode, allow, clock);
      match Resolve(cands[n], tools, decode, allow)
      case None => calls
      case Some(c) => calls + [ToolCall(MintId(clock, |calls|), c.0, c.1)]
  }

  function Extraction(text: string, tools: seq<ToolSpec>, decode: Decoder, clock: nat -> nat): Outcome<seq<ToolCall>> {
    match Whole(text, decode)
    case Panicked => Panicked
    case Done(whole) =>
      var first := Push(Candidates(whole), tools, decode, true, clock);
      Done(if first != [] then first else Push(Embedded(text, decode), tools, decode, false, clock))
  }

  lemma {:induction false} ExtractorPanicsExactly(
    text: string, tools: seq<ToolSpec>, decode: Decoder, clock: nat -> nat)
    ensures Extraction(text, tools, decode, clock).Panicked? <==> decode(text).None? && SharedNewline(text)
  {
    hide Whole, SharedNewline, Push, Embedded;
    WholePanicsExactly(text, decode);
  }

  method PushWrappers(cands: seq<Fields>, tools: seq<ToolSpec>, decode: Decoder, allow: bool, clock: nat -> nat)
    returns (out: seq<ToolCall>)
    ensures out == Push(cands, tools, decode, allow, clock)
  {
    hide Push, Resolve, MintId;
    PushNone(tools, decode, allow, clock);
    out := [];
    var seqNo := 0;
    assert cands[..0] == [];
    for i := 0 to |cands|
      invariant out == Push(cands[..i], tools, decode, allow, clock) && seqNo == |out|
    {
      PushOne(cands, i, tools, decode, allow, clock);
      var resolved := Resolve(cands[i], tools, decode, allow);
      if resolved.Some? {
        out := out + [ToolCall(MintId(clock, seqNo), resolved.value.0, resolved.value.1)];
        seqNo := seqNo + 1;
      }
    }
    assert cands[..|cands|] == cands;
  }

  lemma {:induction false} PushNone(tools: seq<ToolSpec>, decode: Decoder, allow: bool, clock: nat -> nat)
    ensures Push([], tools, decode, allow, clock) == []
  {
  }

  lemma {:induction false} PushOne(
    cands: seq<Fields>, i: nat, tools: seq<ToolSpec>, decode: Decoder, allow: bool, clock: nat -> nat)
    requires i < |cands|
    ensures
      var calls := Push(cands[..i], tools, decode, allow, clock);
      Push(cands[..i + 1], tools, decode, allow, clock)
        == match Resolve(cands[i], tools, decode, allow)
           case None => calls
           case Some(c) => calls + [ToolCall(MintId(clock, |calls|), c.0, c.1)]
  {
    hide Resolve, MintId;
    assert cands[..i + 1][..i] == cands[..i] && cands[..i + 1][i] == cands[i];
  }

  method ExtractToolCallWrappers(text: string, tools: seq<ToolSpec>, decode: Decoder, clock: nat -> nat)
    returns (r: Outcome<seq<ToolCall>>)
    ensures r == Extraction(text, tools, decode, clock)
  {
    var whole := Whole(text, decode);
    if whole.Panicked? {
      return Panicked;
    }
    var out := PushWrappers(Candidates(whole.value), tools, decode, true, clock);
    if |out| == 0 {
      var objects := ExtractToolCallObjects(text, TryParse(decode));
      out := PushWrappers(objects, tools, decode, false, clock);
    }
    r := Done(out);
  }

  // ---------------------------------------------------------------- what extraction guarantees

  lemma {:induction false} PushNamesOffered(
    cands: seq<Fields>, tools: seq<ToolSpec>, decode: Decoder, allow: bool, clock: nat -> nat)
    ensures
      var calls := Push(cands, tools, decode, allow, clock);
      forall i :: 0 <= i < |calls| ==> Offered(tools, calls[i].name) && calls[i].id == MintId(clock, i)
    decreases |cands|
  {
    hide Resolve, MintId;
    if cands == [] {
    } else {
      PushNamesOffered(cands[..|cands| - 1], tools, decode, allow, clock);
    }
  }

  /** Ids end in their own sequence number, so they differ even when the clock stands still. */
  lemma {:induction false} IdsDiffer(clock: nat -> nat, i: nat, j: nat)
    requires i != j
    ensures MintId(clock, i) != MintId(clock, j)
  {
    hide Decimal;
    NumberOfDecimal(i);
    NumberOfDecimal(j);
    AfterLastMark("call_" + Decimal(clock(i)), Decimal(i), "call_" + Decimal(clock(j)), Decimal(j));
  }

  lemma {:induction false} AfterLastMark(p: string, a: string, q: string, b: string)
    requires '_' !in a && '_' !in b && a != b
    ensures p + "_" + a != q + "_" + b
  {
    var s, t := p + "_" + a, q + "_" + b;
    assert s[|s| - |a|..] == a && t[|t| - |b|..] == b;
    if |a| < |b| <= |t| && |s| == |t| {
      assert s[|s| - |a| - 1] == '_' && t[|t| - |a| - 1] == b[|b| - |a| - 1];
    } else if |b| < |a| && |s| == |t| {
      assert t[|t| - |b| - 1] == '_' && s[|s| - |b| - 1] == a[|a| - |b| - 1];
    }
  }

  /** Every extracted call names an offered tool, and its id holds the clock and the call's number, so that no two calls
      of one extraction share it. */
  lemma {:induction false} ExtractedCallsAreOffered(
    text: string, tools: seq<ToolSpec>, decode: Decoder, clock: nat -> nat)
    requires Extraction(text, tools, decode, clock).Done?
    ensures
      var calls := Extraction(text, tools, decode, clock).value;
      && (forall i :: 0 <= i < |calls| ==>
            Offered(tools, calls[i].name) && calls[i].id == "call_" + Decimal(clock(i)) + "_" + Decimal(i))
      && (forall i, j :: 0 <= i < j < |calls| ==> calls[i].id != calls[j].id)
  {
    var whole := Whole(text, decode).value;
    PushNamesOffered(Candidates(whole), tools, decode, true, clock);
    PushNamesOffered(Embedded(text, decode), tools, decode, false, clock);
    var calls := Extraction(text, tools, decode, clock).value;
    forall i, j | 0 <= i < j < |calls| ensures calls[i].id != calls[j].id {
      IdsDiffer(clock, i, j);
    }
  }

  // ---------------------------------------------------------------- classifier and extractor agree

  lemma {:induction false} PushIsMap(
    cands: seq<Fields>, tools: seq<ToolSpec>, decode: Decoder, allow: bool, clock: nat -> nat)
    requires
      var ws := Wrappers(cands);
      forall i :: 0 <= i < |ws| ==> Resolve(ws[i], tools, decode, allow).Some?
    ensures
      var ws := Wrappers(cands);
      var calls := Push(cands, tools, decode, allow, clock);
      && |calls| == |ws|
      && forall i :: 0 <= i < |ws| ==> (calls[i].name, calls[i].arguments) == Resolve(ws[i], tools, decode, allow).value
    decreases |cands|
  {
    if cands == [] {
    } else {
      PushIsMapStep(cands, tools, decode, allow, clock);
    }
  }

  lemma {:induction false} PushIsMapStep(
    cands: seq<Fields>, tools: seq<ToolSpec>, decode: Decoder, allow: bool, clock: nat -> nat)
    requires cands != []
    requires
      var ws := Wrappers(cands);
      forall i :: 0 <= i < |ws| ==> Resolve(ws[i], tools, decode, allow).Some?
    ensures
      var ws := Wrappers(cands);
      var calls := Push(cands, tools, decode, allow, clock);
      && |calls| == |ws|
      && forall i :: 0 <= i < |ws| ==> (calls[i].name, calls[i].arguments) == Resolve(ws[i], tools, decode, allow).value
    decreases |cands|, 0
  {
    hide MintId, Resolve, Wrappers, IsWrapper;
    var n := |cands| - 1;
    WrappersSnoc(cands, n);
    assert cands[..n + 1] == cands;
    var before := Wrappers(cands[..n]);
    assert forall i :: 0 <= i < |before| ==> before[i] == Wrappers(cands)[i];
    PushIsMap(cands[..n], tools, decode, allow, clock);
    if IsWrapper(cands[n]) {
      assert Wrappers(cands)[|before|] == cands[n];
    }
  }

  /** The wrappers of the tier that decides: the whole reply if it has any, else the prose. */
  function Deciding(text: string, decode: Decoder): seq<Fields> {
    match Whole(text, decode)
    case Panicked => []
    case Done(whole) =>
      if Wrappers(Candidates(whole)) != [] then Wrappers(Candidates(whole)) else Wrappers(Embedded(text, decode))
  }

  function NameOf(m: Fields): string
    requires IsWrapper(m)
  {
    TextAt(Inner(m), "name")
  }

  function ArgumentsOf(m: Fields, decode: Decoder): Fields
    requires IsWrapper(m)
  {
    match Arguments(Inner(m), decode) case Some(args) => args case None => map[]
  }

  /** One call per wrapper, under its own name. */
  ghost predicate CallsAreDirect(calls: seq<ToolCall>, ws: seq<Fields>, decode: Decoder)
    requires forall i :: 0 <= i < |ws| ==> IsWrapper(ws[i])
  {
    && |calls| == |ws|
    && forall i :: 0 <= i < |ws| ==> calls[i].name == NameOf(ws[i]) && calls[i].arguments == ArgumentsOf(ws[i], decode)
  }

  /** One call per wrapper, each the dispatcher applied to the inner name and arguments. */
  ghost predicate CallsAreDispatched(calls: seq<ToolCall>, ws: seq<Fields>, decode: Decoder)
    requires forall i :: 0 <= i < |ws| ==> IsWrapper(ws[i])
  {
    && |calls| == |ws|
    && forall i :: 0 <= i < |ws| ==>
         calls[i].name == TOOL_CALL && calls[i].arguments == Dispatched(NameOf(ws[i]), ArgumentsOf(ws[i], decode))
  }

  lemma {:induction false} DirectTier(
    cands: seq<Fields>, tools: seq<ToolSpec>, decode: Decoder, embedded: bool, clock: nat -> nat)
    requires Classification(cands, tools, decode, embedded) == Direct
    ensures Wrappers(cands) != []
    ensures CallsAreDirect(Push(cands, tools, decode, !embedded, clock), Wrappers(cands), decode)
  {
    hide Push;
    PushIsMap(cands, tools, decode, !embedded, clock);
  }

  lemma {:induction false} DispatchedTier(cands: seq<Fields>, tools: seq<ToolSpec>, decode: Decoder, clock: nat -> nat)
    requires Classification(cands, tools, decode, false) == DispatcherExact
    ensures Wrappers(cands) != []
    ensures CallsAreDispatched(Push(cands, tools, decode, true, clock), Wrappers(cands), decode)
  {
    hide Push;
    PushIsMap(cands, tools, decode, true, clock);
  }

  lemma {:induction false} EmptyTier(
    cands: seq<Fields>, tools: seq<ToolSpec>, decode: Decoder, embedded: bool, clock: nat -> nat)
    requires Classification(cands, tools, decode, embedded) == WrapperNone
    ensures Wrappers(cands) == [] && Push(cands, tools, decode, !embedded, clock) == []
  {
    hide Push;
    PushIsMap(cands, tools, decode, !embedded, clock);
  }

  lemma {:induction false} EmbeddedIsNeverExact(cands: seq<Fields>, tools: seq<ToolSpec>, decode: Decoder)
    ensures Classification(cands, tools, decode, true) != DispatcherExact
  {
  }

  /** On every text within the scan budget the read-only classifier predicts the extractor. */
  lemma {:induction false} ClassifierPredictsExtractor(
    text: string, tools: seq<ToolSpec>, decode: Decoder, clock: nat -> nat)
    requires |text| <= MAX_SCAN_BYTES
    ensures
      var seen := Observation(text, tools, decode);
      var got := Extraction(text, tools, decode, clock);
      && (seen.Panicked? <==> got.Panicked?)
      && (seen == Done(WrapperNone) ==> got == Done([]))
      && (seen == Done(Direct) ==> got.Done? && CallsAreDirect(got.value, Deciding(text, decode), decode))
      && (seen == Done(DispatcherExact) ==> got.Done? && CallsAreDispatched(got.value, Deciding(text, decode), decode))
  {
    hide Push, Classification, Embedded, Candidates, Wrappers, CallsAreDirect, CallsAreDispatched, Whole, Contains;
    if Whole(text, decode).Done? {
      var whole := Candidates(Whole(text, decode).value);
      var embedded := Embedded(text, decode);
      var first := Classification(whole, tools, decode, false);
      if first == WrapperNone {
        EmptyTier(whole, tools, decode, false, clock);
        EmbeddedIsNeverExact(embedded, tools, decode);
        match Classification(embedded, tools, decode, true)
        case WrapperNone => EmptyTier(embedded, tools, decode, true, clock);
        case Direct => DirectTier(embedded, tools, decode, true, clock);
        case _ =>
      } else if first == Direct {
        DirectTier(whole, tools, decode, false, clock);
        NonEmptyCalls(Push(whole, tools, decode, true, clock), Wrappers(whole), decode);
      } else if first == DispatcherExact {
        DispatchedTier(whole, tools, decode, clock);
        NonEmptyCalls(Push(whole, tools, decode, true, clock), Wrappers(whole), decode);
      }
    }
  }

  lemma {:induction false} NonEmptyCalls(calls: seq<ToolCall>, ws: seq<Fields>, decode: Decoder)
    requires forall i :: 0 <= i < |ws| ==> IsWrapper(ws[i])
    requires ws != [] && (CallsAreDirect(calls, ws, decode) || CallsAreDispatched(calls, ws, decode))
    ensures calls != []
  {
  }

  // ---------------------------------------------------------------- rewriting a response

  datatype Part = TextPart(text: string) | OtherPart(text: string)

  class Response {
    var content: seq<Part>
    var toolCalls: seq<ToolCall>
  }

  function FirstText(content: seq<Part>): (r: int)
    ensures -1 <= r < |content|
    ensures r >= 0 ==> content[r].TextPart?
    ensures forall k :: 0 <= k < (if r < 0 then |content| else r) ==> !content[k].TextPart?
  {
    if content == [] then -1
    else if content[0].TextPart? then 0
    else
      var r := FirstText(content[1..]);
      if r < 0 then -1 else r + 1
  }

  /** The single call guessed from a bare arguments object. */
  function Guess(text: string, tools: seq<ToolSpec>, decode: Decoder, now: nat): Option<ToolCall> {
    match Whole(text, decode)
    case Done(Some(Dict(m))) =>
      (match BestTool(m, tools)
       case None => None
       case Some(k) => Some(ToolCall("call_" + Decimal(now), tools[k].name, m)))
    case _ => None
  }

  /** What the reply text stands for: explicit wrappers first, else a bare arguments object. */
  function Recovered(
    text: string, tools: seq<ToolSpec>, decode: Decoder, clock: nat -> nat, now: nat): Outcome<seq<ToolCall>>
  {
    if TrimSpace(text) == "" then Done([])
    else
      match Extraction(text, tools, decode, clock)
      case Panicked => Panicked
      case Done(calls) =>
        if calls != [] then Done(calls)
        else match Guess(text, tools, decode, now) case None => Done([]) case Some(c) => Done([c])
  }

  lemma {:induction false} RecoveredNamesOffered(
    text: string, tools: seq<ToolSpec>, decode: Decoder, clock: nat -> nat, now: nat)
    requires Recovered(text, tools, decode, clock, now).Done?
    ensures
      var calls := Recovered(text, tools, decode, clock, now).value;
      forall i :: 0 <= i < |calls| ==> Offered(tools, calls[i].name)
  {
    hide Extraction;
    if TrimSpace(text) != "" {
      ExtractedCallsAreOffered(text, tools, decode, clock);
    }
  }

  /** Rewrites the response exactly when its text stands for at least one call: the text is cleared
      and the calls, all naming offered tools, take its place; otherwise nothing changes. */
  method CoerceToolCall(tools: Option<seq<ToolSpec>>, resp: Response?, decode: Decoder, clock: nat -> nat, now: nat)
    returns (r: Outcome<bool>)
    modifies resp
    ensures resp == null || tools.None? || tools.value == [] ==> r == Done(false)
    ensures resp != null && (old(resp.toolCalls) != [] || FirstText(old(resp.content)) < 0) ==> r == Done(false)
    ensures resp != null && r != Done(true) ==>
              resp.content == old(resp.content) && resp.toolCalls == old(resp.toolCalls)
    ensures r == Done(true) ==>
              && resp != null && tools.Some? && old(resp.toolCalls) == [] && resp.toolCalls != []
              && (forall i :: 0 <= i < |resp.toolCalls| ==> Offered(tools.value, resp.toolCalls[i].name))
              && var k := FirstText(old(resp.content));
              && 0 <= k && resp.content == old(resp.content)[k := TextPart("")]
              && Done(resp.toolCalls) == Recovered(old(resp.content)[k].text, tools.value, decode, clock, now)
    ensures resp != null && tools.Some? && tools.value != []
            && old(resp.toolCalls) == [] && FirstText(old(resp.content)) >= 0 ==>
              var text := old(resp.content)[FirstText(old(resp.content))].text;
              match Recovered(text, tools.value, decode, clock, now)
              case Panicked => r == Panicked
              case Done(calls) => r == Done(calls != [])
  {
    hide Recovered, FirstText;
    if tools.None? || resp == null {
      return Done(false);
    }
    if |tools.value| == 0 || |resp.toolCalls| > 0 {
      return Done(false);
    }
    var textIdx := FindText(resp.content);
    if textIdx < 0 {
      return Done(false);
    }
    var calls := RecoverCalls(resp.content[textIdx].text, tools.value, decode, clock, now);
    if calls.Panicked? {
      return Panicked;
    }
    RecoveredNamesOffered(resp.content[textIdx].text, tools.value, decode, clock, now);
    if |calls.value| == 0 {
      return Done(false);
    }
    resp.content := resp.content[textIdx := TextPart("")];
    resp.toolCalls := calls.value;
    r := Done(true);
  }

  method FindText(content: seq<Part>) returns (textIdx: int)
    ensures textIdx == FirstText(content)
  {
    textIdx := -1;
    for i := 0 to |content|
      invariant forall k :: 0 <= k < i ==> !content[k].TextPart?
    {
      if content[i].TextPart? {
        return i;
      }
    }
  }

  /** Tool calls in a text: wrappers, then the whole text as an arguments object scored against the tools. */
  method RecoverCalls(rawText: string, tools: seq<ToolSpec>, decode: Decoder, clock: nat -> nat, now: nat)
    returns (r: Outcome<seq<ToolCall>>)
    ensures r == Recovered(rawText, tools, decode, clock, now)
  {
    hide Extraction, Whole, TrimSpace, IsBest, Scores, Decimal;
    if TrimSpace(rawText) == "" {
      return Done([]);
    }
    r := ExtractToolCallWrappers(rawText, tools, decode, clock);
    if r.Panicked? || |r.value| > 0 {
      return;
    }
    var parsed := Whole(rawText, decode);
    if parsed.Panicked? || parsed.value.None? || !parsed.value.value.Dict? {
      return Done([]);
    }
    var fields := parsed.value.value.fields;
    var best, score := PickBestTool(fields, tools);
    if best < 0 {
      return Done([]);
    }
    r := Done([ToolCall("call_" + Decimal(now), tools[best].name, fields)]);
  }
}
