/** From model output to tool calls: the scanner (ToolCallScan) and the extractor (ToolCallWrappers) together,
    for a decoder that gives back what was printed. */
module ToolCallReplies {
  import opened Options
  import opened JsonText
  import opened ToolCallScan
  import opened ToolCallExtract
  import opened ToolCallRepair
  import opened ToolCallWrappers

  /** How the leaves of a text read: a number, boolean or null, and the characters of a string body. */
  datatype Reading = Reading(scalar: string -> Any, unquote: string -> string)

  function Meaning(v: Value, r: Reading): Any {
    match v
    case Scalar(text) => r.scalar(text)
    case Str(body) => Text(r.unquote(body))
    case Arr(_, items) => List(MeaningOfItems(items, r))
    case Obj(_, members) => Dict(MeaningOfMembers(members, r))
  }

  function MeaningOfItems(xs: Items, r: Reading): seq<Any> {
    match xs
    case NoItems => []
    case Item(_, value, _, rest) => [Meaning(value, r)] + MeaningOfItems(rest, r)
  }

  /** Of members with one name the last counts. */
  function MeaningOfMembers(ms: Members, r: Reading): Fields {
    match ms
    case NoMembers => map[]
    case Member(_, key, _, _, value, _, rest) => map[r.unquote(key) := Meaning(value, r)] + MeaningOfMembers(rest, r)
  }

  // ---------------------------------------------------------------- the objects with a tool_call key

  /** As `Wanted`, but the values and not their texts. */
  function WantedValues(v: Value): seq<Value> {
    match v
    case Scalar(_) => []
    case Str(_) => []
    case Arr(_, items) => WantedOfItems(items)
    case Obj(_, members) => WantedOfMembers(members) + (if HasToolCall(members) then [v] else [])
  }

  function WantedOfItems(xs: Items): seq<Value> {
    match xs
    case NoItems => []
    case Item(_, value, _, rest) => WantedValues(value) + WantedOfItems(rest)
  }

  function WantedOfMembers(ms: Members): seq<Value> {
    match ms
    case NoMembers => []
    case Member(_, _, _, _, value, _, rest) => WantedValues(value) + WantedOfMembers(rest)
  }

  ghost predicate AllObjects(vs: seq<Value>) {
    forall i :: 0 <= i < |vs| ==> vs[i].Obj? && WellFormed(vs[i])
  }

  function Texts(vs: seq<Value>): seq<string> {
    seq(|vs|, i requires 0 <= i < |vs| => Print(vs[i]))
  }

  function FieldsOf(vs: seq<Value>, r: Reading): seq<Fields>
    requires forall i :: 0 <= i < |vs| ==> vs[i].Obj?
  {
    seq(|vs|, i requires 0 <= i < |vs| => MeaningOfMembers(vs[i].members, r))
  }

  /** The decoder inverts the printer on these values, or rejects their text and inverts it once raw line feeds,
      carriage returns and tabs in strings are written as escapes; `tool_call` without escapes reads as it stands. */
  ghost predicate Inverts(decode: Decoder, r: Reading, vs: seq<Value>) {
    && (forall i :: 0 <= i < |vs| ==>
          || decode(Print(vs[i])) == Some(Meaning(vs[i], r))
          || (decode(Print(vs[i])).None? && decode(Print(Escaped(vs[i]))) == Some(Meaning(vs[i], r))))
    && r.unquote(TOOL_CALL) == TOOL_CALL
  }

  lemma {:induction false} TextsConcat(a: seq<Value>, b: seq<Value>)
    ensures Texts(a + b) == Texts(a) + Texts(b)
  {
  }

  lemma {:induction false} WantedAreTexts(v: Value)
    requires WellFormed(v)
    ensures Wanted(v) == Texts(WantedValues(v)) && AllObjects(WantedValues(v))
    decreases v, 0
  {
    hide Print;
    match v
    case Scalar(_) =>
    case Str(_) =>
    case Arr(_, items) => WantedAreTextsOfItems(items);
    case Obj(_, members) =>
      hide Texts, AllObjects;
      WantedAreTextsOfMembers(members);
      OwnText(WantedOfMembers(members), v, HasToolCall(members));
  }

  lemma {:induction false} OwnText(vs: seq<Value>, v: Value, wanted: bool)
    requires AllObjects(vs) && v.Obj? && WellFormed(v)
    ensures
      var all := vs + (if wanted then [v] else []);
      Texts(all) == Texts(vs) + (if wanted then [Print(v)] else []) && AllObjects(all)
  {
    hide Print, WellFormed;
  }

  lemma {:induction false} WantedAreTextsOfItems(xs: Items)
    requires WellFormedItems(xs)
    ensures WantedItems(xs) == Texts(WantedOfItems(xs)) && AllObjects(WantedOfItems(xs))
    decreases xs, 0
  {
    hide Print;
    match xs
    case NoItems =>
    case Item(_, value, _, rest) =>
      WantedAreTexts(value);
      WantedAreTextsOfItems(rest);
      TextsConcat(WantedValues(value), WantedOfItems(rest));
  }

  lemma {:induction false} WantedAreTextsOfMembers(ms: Members)
    requires WellFormedMembers(ms)
    ensures WantedMembers(ms) == Texts(WantedOfMembers(ms)) && AllObjects(WantedOfMembers(ms))
    decreases ms, 0
  {
    hide Print;
    match ms
    case NoMembers =>
    case Member(_, _, _, _, value, _, rest) =>
      WantedAreTexts(value);
      WantedAreTextsOfMembers(rest);
      TextsConcat(WantedValues(value), WantedOfMembers(rest));
  }

  // ---------------------------------------------------------------- what the scanner makes of printed objects

  /** Each object contributes what the decoder reads in its text, or else in its text with raw line feeds, carriage
      returns and tabs in strings written as escapes, or else nothing. */
  function Found<T>(vs: seq<Value>, parse: string -> Option<T>): seq<T> {
    if vs == [] then []
    else
      var raw, escaped := parse(Print(vs[0])), parse(Print(Escaped(vs[0])));
      (if raw.Some? then [raw.value] else if escaped.Some? then [escaped.value] else []) + Found(vs[1..], parse)
  }

  lemma {:induction false} DecodedIsFound<T>(vs: seq<Value>, parse: string -> Option<T>)
    requires AllObjects(vs)
    ensures Decoded(parse, Texts(vs)) == Found(vs, parse)
    decreases |vs|
  {
    if vs == [] {
    } else {
      hide Print, WellFormed, RepairControlChars;
      assert Texts(vs)[1..] == Texts(vs[1..]);
      DecodedIsFound(vs[1..], parse);
      RepairOfPrinted(vs[0]);
    }
  }

  /** A JSON value in prose: exactly the objects with a direct `tool_call` key are found, in closing order and up to
      the budget, each as the decoder reads it, raw control characters in its strings notwithstanding. */
  lemma {:induction false} PrintedObjectsAreRead<T>(prose: string, v: Value, rest: string, parse: string -> Option<T>)
    requires NoneOf(prose, {'"', '{'}) && NoneOf(rest, {'{'})
    requires WellFormed(v) && ObjectDepth(v) <= MAX_NEST_DEPTH && |prose| + |Print(v)| <= MAX_SCAN_BYTES
    ensures ToolCallObjects(prose + Print(v) + rest, parse) == Take(Found(WantedValues(v), parse), MAX_CANDIDATES)
  {
    hide Print, WellFormed, Wanted, WantedValues, ToolCallObjects, Decoded, Found, NoneOf;
    PrintedValueIsFound(prose, v, rest, parse);
    WantedAreTexts(v);
    DecodedIsFound(WantedValues(v), parse);
  }

  function WantedOpenValues(sp: Spine): seq<Value> {
    if sp.Tip? then WantedOfMembers(sp.members) else WantedOfMembers(sp.done) + WantedOpenValues(sp.inner)
  }

  lemma {:induction false} WantedOpenAreTexts(sp: Spine)
    requires WellFormedSpine(sp)
    ensures WantedOpen(sp) == Texts(WantedOpenValues(sp)) && AllObjects(WantedOpenValues(sp))
  {
    hide Print;
    if sp.Tip? {
      WantedAreTextsOfMembers(sp.members);
    } else {
      WantedAreTextsOfMembers(sp.done);
      WantedOpenAreTexts(sp.inner);
      TextsConcat(WantedOfMembers(sp.done), WantedOpenValues(sp.inner));
    }
  }

  lemma {:induction false} AppendWellFormed(ms: Members, last: Members)
    requires WellFormedMembers(ms) && WellFormedMembers(last)
    ensures WellFormedMembers(Append(ms, last))
    decreases ms
  {
    if ms.Member? {
      AppendWellFormed(ms.rest, last);
    }
  }

  lemma {:induction false} ClosedWellFormed(sp: Spine)
    requires WellFormedSpine(sp)
    ensures Closed(sp).Obj? && WellFormed(Closed(sp))
  {
    hide AllSpace, IsBody;
    if sp.Branch? {
      ClosedWellFormed(sp.inner);
      NoSpace();
      assert WellFormedMembers(NoMembers);
      AppendWellFormed(sp.done, Member(sp.pre, sp.key, sp.mid, sp.aft, Closed(sp.inner), "", NoMembers));
    }
  }

  lemma {:induction false} NoSpace()
    ensures AllSpace("")
  {
  }

  lemma {:induction false} FocusWellFormed(sp: Spine)
    requires WellFormedSpine(sp)
    ensures Focus(sp).Some? ==> WellFormedSpine(Focus(sp).value)
  {
    hide AllSpace, IsBody, Marked, WellFormedMembers;
    if sp.Branch? {
      FocusWellFormed(sp.inner);
    }
  }

  /** The objects whose texts the scanner sees in a text cut inside `sp`: the complete ones, then the innermost open
      one as it was before the cut, if it is within the limits. */
  function SeenInCut(sp: Spine): seq<Value> {
    WantedOpenValues(sp) +
    match Focus(sp)
    case None => []
    case Some(f) =>
      if Height(f) <= MAX_REPAIR_DEPTH && |PrintOpen(f)| <= MAX_REPAIR_SLICE then [Closed(f)] else []
  }

  /** The same for an object that lost its closing braces: the restored object is read like the others. */
  lemma {:induction false} RestoredObjectIsRead<T>(prose: string, sp: Spine, tail: string, parse: string -> Option<T>)
    requires NoneOf(prose, {'"', '{'}) && AllSpace(tail)
    requires WellFormedSpine(sp) && SpineDepth(sp) <= MAX_NEST_DEPTH
    requires |prose| + |PrintOpen(sp)| + |tail| <= MAX_SCAN_BYTES
    ensures ToolCallObjects(prose + PrintOpen(sp) + tail, parse) == Take(Found(SeenInCut(sp), parse), MAX_CANDIDATES)
  {
    hide Print, PrintOpen, WellFormed, WantedOpen, WantedOpenValues, ToolCallObjects, Decoded, Found, NoneOf, AllSpace;
    hide Height, WellFormedSpine;
    TruncatedObjectIsRestored(prose, sp, tail, parse);
    WantedOpenAreTexts(sp);
    FocusWellFormed(sp);
    var repaired := match Focus(sp)
                    case None => []
                    case Some(f) =>
                      if Height(f) <= MAX_REPAIR_DEPTH && |PrintOpen(f)| <= MAX_REPAIR_SLICE then [Closed(f)] else [];
    if Focus(sp).Some? {
      ClosedWellFormed(Focus(sp).value);
    }
    assert SeenInCut(sp) == WantedOpenValues(sp) + repaired;
    TextsConcat(WantedOpenValues(sp), repaired);
    assert Texts(repaired) == match Focus(sp)
                              case None => []
                              case Some(f) =>
                                if Height(f) <= MAX_REPAIR_DEPTH && |PrintOpen(f)| <= MAX_REPAIR_SLICE
                                then [Print(Closed(f))] else [];
    DecodedIsFound(SeenInCut(sp), parse);
  }

  /** With a decoder that inverts the printer, the objects found are the meanings of the objects. */
  lemma {:induction false} FoundObjects(vs: seq<Value>, decode: Decoder, r: Reading)
    requires Inverts(decode, r, vs) && AllObjects(vs)
    ensures Found(vs, TryParse(decode)) == FieldsOf(vs, r)
    decreases |vs|
  {
    if vs == [] {
    } else {
      hide Print, WellFormed, MeaningOfMembers, Meaning, Escaped, Found;
      assert forall i :: 0 <= i < |vs| - 1 ==> vs[1..][i] == vs[i + 1];
      FoundObjects(vs[1..], decode, r);
      FirstFound(vs, decode, r);
      assert FieldsOf(vs, r) == [MeaningOfMembers(vs[0].members, r)] + FieldsOf(vs[1..], r);
    }
  }

  lemma {:induction false} FirstFound(vs: seq<Value>, decode: Decoder, r: Reading)
    requires vs != [] && vs[0].Obj?
    requires
      || decode(Print(vs[0])) == Some(Meaning(vs[0], r))
      || (decode(Print(vs[0])).None? && decode(Print(Escaped(vs[0]))) == Some(Meaning(vs[0], r)))
    ensures Found(vs, TryParse(decode)) == [MeaningOfMembers(vs[0].members, r)] + Found(vs[1..], TryParse(decode))
  {
    hide Print, Escaped;
  }

  // ---------------------------------------------------------------- main results

  /** A reply that holds a JSON value in prose: if the reply as a whole yields no call, the calls are those
      of the first 32 objects with a `tool_call` key, in the order their braces close. */
  lemma {:induction false} ReplyBecomesCalls(
    prose: string, v: Value, rest: string, tools: seq<ToolSpec>, decode: Decoder, clock: nat -> nat, r: Reading)
    requires Inverts(decode, r, WantedValues(v)) && NoneOf(prose, {'"', '{'}) && NoneOf(rest, {'{'})
    requires WellFormed(v) && ObjectDepth(v) <= MAX_NEST_DEPTH && |prose| + |Print(v)| <= MAX_SCAN_BYTES
    requires Whole(prose + Print(v) + rest, decode).Done?
    ensures AllObjects(WantedValues(v))
    ensures
      var text := prose + Print(v) + rest;
      var first := Push(Candidates(Whole(text, decode).value), tools, decode, true, clock);
      var found := Push(Take(FieldsOf(WantedValues(v), r), MAX_CANDIDATES), tools, decode, false, clock);
      Extraction(text, tools, decode, clock) == Done(if first != [] then first else found)
  {
    hide Print, Whole, Push, Wanted, WantedValues, FieldsOf, Texts, WellFormed, Candidates, ToolCallObjects, Take;
    hide TryParse, Found;
    PrintedObjectsAreRead(prose, v, rest, TryParse(decode));
    WantedAreTexts(v);
    FoundObjects(WantedValues(v), decode, r);
  }

  /** The usual reply, a wrapper in prose, becomes exactly the call it spells out, if the tool is offered. */
  lemma {:induction false} WrapperBecomesCall(
    prose: string, v: Value, rest: string, tools: seq<ToolSpec>, decode: Decoder, clock: nat -> nat, r: Reading,
    name: string, args: Fields)
    requires Inverts(decode, r, WantedValues(v)) && NoneOf(prose, {'"', '{'}) && NoneOf(rest, {'{'})
    requires WellFormed(v) && ObjectDepth(v) <= MAX_NEST_DEPTH && |prose| + |Print(v)| <= MAX_SCAN_BYTES
    requires Whole(prose + Print(v) + rest, decode) == Done(None)
    requires v.Obj? && v.members.Member? && v.members.rest.NoMembers? && v.members.key == TOOL_CALL
    requires v.members.value.Obj? && WantedValues(v.members.value) == []
    requires
      var inner := MeaningOfMembers(v.members.value.members, r);
      && "name" in inner && inner["name"] == Text(name) && "arguments" in inner && inner["arguments"] == Dict(args)
    requires name != "" && Offered(tools, name)
    ensures Extraction(prose + Print(v) + rest, tools, decode, clock) == Done([ToolCall(MintId(clock, 0), name, args)])
  {
    hide Print, WellFormed, Whole, ObjectDepth, NoneOf, MintId, Extraction, Offered, WantedValues, Push, Inverts;
    hide MeaningOfMembers, IsWrapper;
    ReplyBecomesCalls(prose, v, rest, tools, decode, clock, r);
    WrapperIsWanted(v);
    var m := MeaningOfMembers(v.members, r);
    assert r.unquote(TOOL_CALL) == TOOL_CALL by {
      InvertsKey(decode, r, WantedValues(v));
    }
    WrapperMeans(v, r);
    assert FieldsOf([v], r) == [m];
    PushNone(tools, decode, true, clock);
    OnePush(m, tools, decode, clock, name, args);
  }

  lemma {:induction false} InvertsKey(decode: Decoder, r: Reading, vs: seq<Value>)
    requires Inverts(decode, r, vs)
    ensures r.unquote(TOOL_CALL) == TOOL_CALL
  {
  }

  lemma {:induction false} WrapperIsWanted(v: Value)
    requires v.Obj? && v.members.Member? && v.members.rest.NoMembers? && v.members.key == TOOL_CALL
    requires WantedValues(v.members.value) == []
    ensures WantedValues(v) == [v]
  {
    assert WantedOfMembers(v.members) == WantedValues(v.members.value) + WantedOfMembers(v.members.rest);
    assert HasToolCall(v.members);
  }

  lemma {:induction false} WrapperMeans(v: Value, r: Reading)
    requires r.unquote(TOOL_CALL) == TOOL_CALL && v.Obj? && v.members.Member? && v.members.rest.NoMembers?
    requires v.members.key == TOOL_CALL && v.members.value.Obj?
    ensures
      var m := MeaningOfMembers(v.members, r);
      IsWrapper(m) && Inner(m) == MeaningOfMembers(v.members.value.members, r)
  {
    assert MeaningOfMembers(v.members.rest, r) == map[];
  }

  lemma {:induction false} OnePush(
    m: Fields, tools: seq<ToolSpec>, decode: Decoder, clock: nat -> nat, name: string, args: Fields)
    requires IsWrapper(m) && name != "" && Offered(tools, name)
    requires "name" in Inner(m) && Inner(m)["name"] == Text(name)
    requires "arguments" in Inner(m) && Inner(m)["arguments"] == Dict(args)
    ensures Push([m], tools, decode, false, clock) == [ToolCall(MintId(clock, 0), name, args)]
  {
    hide MintId, Offered, IsWrapper;
    assert Push([m][..0], tools, decode, false, clock) == [];
    assert Resolve(m, tools, decode, false) == Some((name, args));
  }

  // ---------------------------------------------------------------- a raw line feed in an argument

  /** No quote, backslash or control character that needs an escape. */
  predicate Simple(s: string) {
    forall i :: 0 <= i < |s| ==> s[i] !in {'"', '\\', '\n', '\r', '\t'}
  }

  lemma {:induction false} SimpleBody(a: string, b: string)
    requires Simple(a) && IsBody(b)
    ensures IsBody(a + b) && EscapeBody(a + b) == a + EscapeBody(b)
    decreases |a|
  {
    if a == "" {
      assert a + b == b;
    } else {
      var rest := a[1..];
      SimpleBody(rest, b);
      SimpleFirst(a[0], rest + b);
      hide IsBody, EscapeBody;
      assert a + b == [a[0]] + (rest + b);
    }
  }

  lemma {:induction false} SimpleFirst(c: char, s: string)
    requires c !in {'"', '\\', '\n', '\r', '\t'} && IsBody(s)
    ensures IsBody([c] + s) && EscapeBody([c] + s) == [c] + EscapeBody(s)
  {
    assert ([c] + s)[1..] == s;
  }

  lemma {:induction false} SimpleAlone(a: string)
    requires Simple(a)
    ensures IsBody(a) && EscapeBody(a) == a
  {
    SimpleBody(a, "");
    assert a + "" == a;
  }

  function Keyed(key: string, value: Value, rest: Members): Members {
    Member("", key, "", "", value, "", rest)
  }

  function Braced(ms: Members): Value {
    Obj("", ms)
  }

  function Wrapper(name: string, key: string, body: string): Value {
    Braced(Keyed(TOOL_CALL, Braced(NameAndArguments(name, key, body)), NoMembers))
  }

  function NameAndArguments(name: string, key: string, body: string): Members {
    Keyed("name", Str(name), Keyed("arguments", Braced(Keyed(key, Str(body), NoMembers)), NoMembers))
  }

  function FieldText(key: string, value: string): string {
    Quoted(key) + ":" + value
  }

  function BracedText(fields: string): string {
    "{" + fields + "}"
  }

  /** `{"tool_call":{"name":"...","arguments":{"key":"body"}}}` */
  function WrapperText(name: string, key: string, body: string): string {
    var arguments := FieldText("arguments", BracedText(FieldText(key, Quoted(body))));
    BracedText(FieldText(TOOL_CALL, BracedText(FieldText("name", Quoted(name)) + "," + arguments)))
  }

  /** What a decoder reads in such a wrapper. */
  function WrapperMeaning(name: string, key: string, text: string): Any {
    Dict(map[TOOL_CALL := Dict(map["name" := Text(name), "arguments" := Dict(map[key := Text(text)])])])
  }

  lemma {:induction false} KeyedShape(key: string, value: Value, rest: Members)
    ensures
      var ms := Keyed(key, value, rest);
      && ms.Member?
      && PrintMembers(ms) == (if rest.NoMembers? then FieldText(key, Print(value))
                              else FieldText(key, Print(value)) + "," + PrintMembers(rest))
      && (WellFormedMembers(ms) <==> IsBody(key) && WellFormed(value) && WellFormedMembers(rest))
      && EscapedMembers(ms) == Keyed(EscapeBody(key), Escaped(value), EscapedMembers(rest))
      && MembersDepth(ms) == Max(ObjectDepth(value), MembersDepth(rest))
      && WantedOfMembers(ms) == WantedValues(value) + WantedOfMembers(rest)
      && (HasToolCall(ms) <==> key == TOOL_CALL || HasToolCall(rest))
  {
    hide IsBody, EscapeBody;
    NoSpace();
    assert Label("", key, "", "") == Quoted(key) + ":";
    hide Quoted, Label, AllSpace;
  }

  lemma {:induction false} LastShape()
    ensures PrintMembers(NoMembers) == "" && WellFormedMembers(NoMembers) && MembersDepth(NoMembers) == 0
    ensures EscapedMembers(NoMembers) == NoMembers && WantedOfMembers(NoMembers) == [] && !HasToolCall(NoMembers)
  {
  }

  lemma {:induction false} BracedShape(ms: Members)
    ensures
      var v := Braced(ms);
      && v.Obj? && Print(v) == BracedText(PrintMembers(ms)) && (WellFormed(v) <==> WellFormedMembers(ms))
      && Escaped(v) == Braced(EscapedMembers(ms)) && ObjectDepth(v) == 1 + MembersDepth(ms)
      && WantedValues(v) == WantedOfMembers(ms) + (if HasToolCall(ms) then [v] else [])
  {
    NoSpace();
    hide PrintMembers, AllSpace;
    assert "{" + "" == "{";
  }

  lemma {:induction false} StringShape(body: string)
    ensures
      var v := Str(body);
      && Print(v) == Quoted(body) && (WellFormed(v) <==> IsBody(body)) && Escaped(v) == Str(EscapeBody(body))
      && ObjectDepth(v) == 0 && WantedValues(v) == []
  {
  }

  lemma {:induction false} PlainKeys()
    ensures Simple(TOOL_CALL) && Simple("name") && Simple("arguments")
  {
  }

  lemma {:induction false} WrapperShape(name: string, key: string, body: string)
    requires Simple(name) && Simple(key) && key != TOOL_CALL && IsBody(body)
    ensures
      var v := Wrapper(name, key, body);
      && Print(v) == WrapperText(name, key, body) && WellFormed(v) && ObjectDepth(v) == 3
      && Escaped(v) == Wrapper(name, key, EscapeBody(body)) && WantedValues(v) == [v]
      && WantedValues(Braced(NameAndArguments(name, key, body))) == []
  {
    hide Print, PrintMembers, Keyed, Braced, WellFormed, WellFormedMembers, Escaped, EscapedMembers, EscapeBody;
    hide ObjectDepth, MembersDepth, WantedValues, WantedOfMembers, HasToolCall, IsBody, Simple, FieldText, BracedText;
    hide Quoted;
    PlainKeys();
    SimpleAlone(TOOL_CALL);
    SimpleAlone("name");
    SimpleAlone("arguments");
    SimpleAlone(name);
    SimpleAlone(key);
    LastShape();
    StringShape(body);
    StringShape(name);
    var args := Keyed(key, Str(body), NoMembers);
    KeyedShape(key, Str(body), NoMembers);
    BracedShape(args);
    var last := Keyed("arguments", Braced(args), NoMembers);
    KeyedShape("arguments", Braced(args), NoMembers);
    var inner := Keyed("name", Str(name), last);
    KeyedShape("name", Str(name), last);
    BracedShape(inner);
    KeyedShape(TOOL_CALL, Braced(inner), NoMembers);
    BracedShape(Keyed(TOOL_CALL, Braced(inner), NoMembers));
  }

  /** A wrapper whose argument holds a raw line feed, which no JSON decoder accepts, becomes its call once the line
      feed is written as an escape. */
  lemma {:induction false} RawNewlineBecomesItsCall(
    prose: string, name: string, key: string, a: string, b: string, rest: string,
    tools: seq<ToolSpec>, decode: Decoder, clock: nat -> nat)
    requires NoneOf(prose, {'"', '{'}) && NoneOf(rest, {'{'})
    requires Simple(name) && Simple(key) && key != TOOL_CALL && Simple(a) && Simple(b)
    requires name != "" && Offered(tools, name)
    requires |prose| + |WrapperText(name, key, a + "\n" + b)| <= MAX_SCAN_BYTES
    requires decode(WrapperText(name, key, a + "\n" + b)).None?
    requires decode(WrapperText(name, key, a + "\\n" + b)) == Some(WrapperMeaning(name, key, a + "\n" + b))
    requires Whole(prose + WrapperText(name, key, a + "\n" + b) + rest, decode) == Done(None)
    ensures Extraction(prose + WrapperText(name, key, a + "\n" + b) + rest, tools, decode, clock)
         == Done([ToolCall(MintId(clock, 0), name, map[key := Text(a + "\n" + b)])])
  {
    hide Print, WrapperText, WellFormed, Escaped, WantedValues, Whole, Extraction, MeaningOfMembers, Meaning, Wrapper;
    hide NameAndArguments, Braced, NoneOf, Simple, MintId, Offered, Inverts;
    var body := a + "\n" + b;
    var v, r := Wrapper(name, key, body), Verbatim();
    LineFeedBody(a, b);
    WrapperShape(name, key, body);
    WrapperShape(name, key, a + "\\n" + b);
    MeaningOfWrapper(name, key, body);
    WrapperInverts(v, decode, r);
    WrapperBecomesCall(prose, v, rest, tools, decode, clock, r, name, map[key := Text(body)]);
  }

  /** String bodies read as they stand. */
  function Verbatim(): Reading {
    Reading(_ => Null, s => s)
  }

  lemma {:induction false} LineFeedBody(a: string, b: string)
    requires Simple(a) && Simple(b)
    ensures IsBody(a + "\n" + b) && EscapeBody(a + "\n" + b) == a + "\\n" + b && IsBody(a + "\\n" + b)
  {
    SimpleAlone(b);
    var tail := "\n" + b;
    assert tail[1..] == b && tail[0] == '\n';
    SimpleBody(a, tail);
    assert a + "\n" + b == a + tail;
    var escaped := "\\n" + b;
    assert escaped[2..] == b && escaped[0] == '\\';
    SimpleBody(a, escaped);
    assert a + "\\n" + b == a + escaped;
  }

  lemma {:induction false} WrapperInverts(v: Value, decode: Decoder, r: Reading)
    requires decode(Print(v)).None? && decode(Print(Escaped(v))) == Some(Meaning(v, r)) && r == Verbatim()
    ensures Inverts(decode, r, [v])
  {
    hide Print, Escaped, Meaning;
  }

  lemma {:induction false} MeaningOfWrapper(name: string, key: string, body: string)
    ensures
      var v, inner := Wrapper(name, key, body), Braced(NameAndArguments(name, key, body));
      && Meaning(v, Verbatim()) == WrapperMeaning(name, key, body)
      && v.Obj? && v.members.Member? && v.members.rest.NoMembers? && v.members.key == TOOL_CALL
      && v.members.value == inner && inner.Obj?
      && MeaningOfMembers(inner.members, Verbatim())
         == map["name" := Text(name), "arguments" := Dict(map[key := Text(body)])]
  {
    var r := Verbatim();
    var args := Keyed(key, Str(body), NoMembers);
    var last := Keyed("arguments", Braced(args), NoMembers);
    LastMeaning(key, Str(body));
    LastMeaning("arguments", Braced(args));
    LastMeaning(TOOL_CALL, Braced(NameAndArguments(name, key, body)));
    assert Meaning(Str(name), r) == Text(name) && Meaning(Str(body), r) == Text(body);
    assert Meaning(Braced(args), r) == Dict(map[key := Text(body)]);
    var inner := NameAndArguments(name, key, body);
    assert MeaningOfMembers(inner, r) == map["name" := Text(name)] + MeaningOfMembers(last, r);
    assert MeaningOfMembers(inner, r) == map["name" := Text(name), "arguments" := Dict(map[key := Text(body)])];
    assert Meaning(Braced(inner), r) == Dict(MeaningOfMembers(inner, r));
    var outer := Keyed(TOOL_CALL, Braced(inner), NoMembers);
    assert Meaning(Braced(outer), r) == Dict(MeaningOfMembers(outer, r));
  }

  lemma {:induction false} LastMeaning(key: string, value: Value)
    ensures MeaningOfMembers(Keyed(key, value, NoMembers), Verbatim()) == map[key := Meaning(value, Verbatim())]
  {
    assert MeaningOfMembers(NoMembers, Verbatim()) == map[];
  }
}
