/** Where the observer and the extractor look for wrapper objects, and how the observer classifies them
    (internal/engine/coerce.go), said on the text of the reply and on the fields of the objects. */
module ToolCallTiers {
  import opened Options
  import opened GoStrings
  import opened Fences
  import opened ToolCallScan
  import opened ToolCallWrappers
  import opened ToolCallNaming

  // ---------------------------------------------------------------- the reply as a whole

  /** Apart from CRLF line ends and white space around it, the text is `inner` in a code fence. */
  predicate FencedAs(text: string, inner: string) {
    var t := TrimSpace(CollapseCrlf(text));
    t == "```json\n" + inner + "\n```" || t == "```\n" + inner + "\n```"
  }

  /** A fence is removed exactly where there is one, and what stood in it is returned. */
  lemma {:induction false} FenceExactly(text: string, inner: string)
    ensures StripFences(text) == Stripped(inner) <==> FencedAs(text, inner)
  {
    hide TrimSpace, CollapseCrlf;
    var t := TrimSpace(CollapseCrlf(text));
    CutCore(JSON_FENCE, inner);
    CutCore(BARE_FENCE, inner);
    if StripFences(text) == Stripped(inner) {
      var open := if HasPrefix(t, JSON_FENCE) then JSON_FENCE else BARE_FENCE;
      assert t == t[..|open|] + t[|open|..|t| - 4] + t[|t| - 4..];
    }
  }

  /** What the reply as a whole decodes to: the raw text if it decodes, else what stands in its fence, else nothing. */
  ghost predicate DecodesTo(text: string, decode: Decoder, v: Option<Any>) {
    if decode(text).Some? then v == decode(text)
    else if exists inner :: FencedAs(text, inner) then exists inner :: FencedAs(text, inner) && v == decode(inner)
    else v == None && !SharedNewline(text)
  }

  lemma {:induction false} WholeExactly(text: string, decode: Decoder, v: Option<Any>)
    ensures Whole(text, decode) == Done(v) <==> DecodesTo(text, decode, v)
  {
    hide StripFences, FencedAs, SharedNewline;
    PanicsExactlyOnSharedNewline(text);
    forall inner ensures StripFences(text) == Stripped(inner) <==> FencedAs(text, inner) {
      FenceExactly(text, inner);
    }
  }

  /** `cands` are the objects among the items, in their order; `from[i]` is where the `i`-th stands. */
  ghost predicate Picks(items: seq<Any>, from: seq<nat>, cands: seq<Fields>) {
    && |from| == |cands| && (forall i, j :: 0 <= i < j < |from| ==> from[i] < from[j])
    && (forall i :: 0 <= i < |from| ==> from[i] < |items| && items[from[i]] == Dict(cands[i]))
    && (forall k :: 0 <= k < |items| && k !in from ==> !items[k].Dict?)
  }

  /** The objects a decoded reply offers: itself, or the objects among the items of a list. */
  ghost predicate Offers(whole: Option<Any>, from: seq<nat>, cands: seq<Fields>) {
    if whole.Some? && whole.value.List? then Picks(whole.value.items, from, cands)
    else cands == if whole.Some? && whole.value.Dict? then [whole.value.fields] else []
  }

  lemma {:induction false} CandidatesExactly(whole: Option<Any>) returns (from: seq<nat>)
    ensures Offers(whole, from, Candidates(whole))
  {
    hide Picks;
    from := [];
    if whole.Some? && whole.value.List? {
      from := DictsFrom(whole.value.items);
    }
  }

  lemma {:induction false} DictsFrom(items: seq<Any>) returns (from: seq<nat>)
    ensures Picks(items, from, Dicts(items))
    decreases |items|
  {
    if items == [] {
      from := [];
    } else {
      hide Picks;
      var n := |items| - 1;
      from := DictsFrom(items[..n]);
      DictsSnoc(items, n);
      assert items == items[..n] + [items[n]];
      PicksSnoc(items[..n], items[n], from, Dicts(items[..n]));
      if items[n].Dict? {
        from := from + [n];
      }
    }
  }

  lemma {:induction false} DictsSnoc(items: seq<Any>, n: nat)
    requires |items| == n + 1
    ensures Dicts(items) == Dicts(items[..n]) + if items[n].Dict? then [items[n].fields] else []
    decreases n
  {
    if n == 0 {
      assert items[1..] == [] && items[..0] == [];
    } else {
      DictsSnoc(items[1..], n - 1);
      assert items[1..][..n - 1] == items[..n][1..];
    }
  }

  lemma {:induction false} PicksSnoc(items: seq<Any>, item: Any, from: seq<nat>, cands: seq<Fields>)
    requires Picks(items, from, cands)
    ensures if item.Dict? then Picks(items + [item], from + [|items|], cands + [item.fields])
            else Picks(items + [item], from, cands)
  {
    assert forall k :: 0 <= k < |items| ==> (items + [item])[k] == items[k];
    if item.Dict? {
      assert forall k :: k !in from + [|items|] ==> k !in from && k != |items| by {
        assert |items| == (from + [|items|])[|from|];
      }
    }
  }

  // ---------------------------------------------------------------- classification

  /** The object carries a `tool_call` object. */
  predicate Wraps(m: Fields) {
    "tool_call" in m && m["tool_call"].Dict?
  }

  /** The wrapper gives a name at all. */
  predicate HasName(m: Fields)
    requires Wraps(m)
  {
    var inner := m["tool_call"].fields;
    "name" in inner && inner["name"].Text? && inner["name"].text != ""
  }

  predicate NamesOffered(m: Fields, tools: seq<ToolSpec>)
    requires Wraps(m)
  {
    HasName(m) && exists i :: 0 <= i < |tools| && tools[i].name == m["tool_call"].fields["name"].text
  }

  /** A name that is not offered, in a bare wrapper with an object as arguments, and a dispatcher declared. */
  ghost predicate NeedsDispatcher(m: Fields, tools: seq<ToolSpec>, decode: Decoder)
    requires Wraps(m)
  {
    HasName(m) && !NamesOffered(m, tools) && GoesToDispatcher(m, m["tool_call"].fields, tools, decode, true)
  }

  ghost predicate AtMostOneWraps(cands: seq<Fields>) {
    forall i, j :: 0 <= i < j < |cands| ==> !Wraps(cands[i]) || !Wraps(cands[j])
  }

  /** The classification of a tier of objects. */
  ghost predicate Classified(
    d: Disposition, cands: seq<Fields>, tools: seq<ToolSpec>, decode: Decoder, embedded: bool)
  {
    d ==
      if forall k :: 0 <= k < |cands| ==> !Wraps(cands[k]) then WrapperNone
      else if embedded && !AtMostOneWraps(cands) then Malformed
      else if forall k :: 0 <= k < |cands| && Wraps(cands[k]) ==> NamesOffered(cands[k], tools) then Direct
      else if forall k :: 0 <= k < |cands| && Wraps(cands[k]) ==> NeedsDispatcher(cands[k], tools, decode) then
        if embedded then DispatcherEmbedded else DispatcherExact
      else Malformed
  }

  lemma {:induction false} CurrentExactly(m: Fields, tools: seq<ToolSpec>, decode: Decoder, embedded: bool)
    requires IsWrapper(m)
    ensures Wraps(m)
    ensures
      Current(m, tools, decode, embedded)
        == if NamesOffered(m, tools) then Direct
           else if NeedsDispatcher(m, tools, decode) then if embedded then DispatcherEmbedded else DispatcherExact
           else Malformed
    ensures NamesOffered(m, tools) ==> !NeedsDispatcher(m, tools, decode)
  {
    hide Arguments, HasDispatcher, IsExactEnvelope, GoesToDispatcher;
    GoesExactly(m, m["tool_call"].fields, tools, decode, true);
  }

  /** `ws` are the objects that wrap, in their order; `from[i]` is where the `i`-th stands. */
  ghost predicate Stand(cands: seq<Fields>, from: seq<nat>, ws: seq<Fields>) {
    && |from| == |ws| && (forall i, j :: 0 <= i < j < |from| ==> from[i] < from[j])
    && (forall i :: 0 <= i < |from| ==> from[i] < |cands| && cands[from[i]] == ws[i])
    && (forall k :: 0 <= k < |cands| && Wraps(cands[k]) ==> k in from)
  }

  lemma {:induction false} WrappersFrom(cands: seq<Fields>) returns (from: seq<nat>)
    ensures Stand(cands, from, Wrappers(cands))
    decreases |cands|
  {
    if cands == [] {
      from := [];
    } else {
      hide Wrappers, IsWrapper, Wraps, Stand;
      var n := |cands| - 1;
      assert cands[..n + 1] == cands == cands[..n] + [cands[n]];
      WrappersSnoc(cands, n);
      from := WrappersFrom(cands[..n]);
      WrapsExactly(cands[n]);
      StandSnoc(cands[..n], cands[n], from, Wrappers(cands[..n]));
      if IsWrapper(cands[n]) {
        from := from + [n];
      } else {
        assert Wrappers(cands[..n]) + [] == Wrappers(cands[..n]);
      }
    }
  }

  lemma {:induction false} StandSnoc(cands: seq<Fields>, m: Fields, from: seq<nat>, ws: seq<Fields>)
    requires Stand(cands, from, ws)
    ensures if Wraps(m) then Stand(cands + [m], from + [|cands|], ws + [m]) else Stand(cands + [m], from, ws)
  {
    hide Wraps;
    var all := cands + [m];
    assert forall k :: 0 <= k < |cands| ==> all[k] == cands[k];
    if Wraps(m) {
      var from' := from + [|cands|];
      assert from'[|from|] == |cands|;
      forall k | 0 <= k < |all| && Wraps(all[k]) ensures k in from' {
        if k < |cands| {
          assert k in from;
          var i :| 0 <= i < |from| && from[i] == k;
          assert from'[i] == k;
        }
      }
    }
  }

  lemma {:induction false} WrapsExactly(m: Fields)
    ensures Wraps(m) <==> IsWrapper(m)
  {
  }

  /** The wrappers are the objects that wrap, so what holds of all of one holds of all of the other. */
  lemma {:induction false} WrappersAre(cands: seq<Fields>, good: Fields -> bool)
    ensures Wrappers(cands) == [] <==> forall k :: 0 <= k < |cands| ==> !Wraps(cands[k])
    ensures |Wrappers(cands)| <= 1 <==> AtMostOneWraps(cands)
    ensures (forall i :: 0 <= i < |Wrappers(cands)| ==> good(Wrappers(cands)[i])) <==>
            (forall k :: 0 <= k < |cands| && Wraps(cands[k]) ==> good(cands[k]))
  {
    hide Wrappers, IsWrapper, Wraps;
    var ws := Wrappers(cands);
    var from := WrappersFrom(cands);
    forall i | 0 <= i < |ws| ensures from[i] < |cands| && cands[from[i]] == ws[i] && Wraps(cands[from[i]]) {
      WrapsExactly(ws[i]);
    }
    forall k | 0 <= k < |cands| && Wraps(cands[k]) ensures exists i :: 0 <= i < |ws| && from[i] == k {
      assert k in from;
    }
    if |ws| >= 1 {
      assert Wraps(cands[from[0]]);
    }
    if |ws| >= 2 {
      assert from[0] < from[1] && Wraps(cands[from[0]]) && Wraps(cands[from[1]]);
    }
  }

  /** What the classifier makes of one wrapper. */
  function Alone(m: Fields, tools: seq<ToolSpec>, decode: Decoder, embedded: bool): Disposition {
    if IsWrapper(m) then Current(m, tools, decode, embedded) else WrapperNone
  }

  lemma {:induction false} ClassificationExactly(
    cands: seq<Fields>, tools: seq<ToolSpec>, decode: Decoder, embedded: bool)
    ensures Classified(Classification(cands, tools, decode, embedded), cands, tools, decode, embedded)
  {
    hide Wrappers, IsWrapper, Wraps, NamesOffered, NeedsDispatcher, Current;
    var ws := Wrappers(cands);
    var dispatched := if embedded then DispatcherEmbedded else DispatcherExact;
    WrappersAre(cands, m => Alone(m, tools, decode, embedded) == Direct);
    WrappersAre(cands, m => Alone(m, tools, decode, embedded) == dispatched);
    forall m | IsWrapper(m)
      ensures Wraps(m) && (Alone(m, tools, decode, embedded) == Direct <==> NamesOffered(m, tools))
      ensures Alone(m, tools, decode, embedded) == dispatched <==> NeedsDispatcher(m, tools, decode)
      ensures Alone(m, tools, decode, embedded) in {Direct, dispatched, Malformed}
    {
      CurrentExactly(m, tools, decode, embedded);
    }
    forall m ensures Wraps(m) <==> IsWrapper(m) {
      WrapsExactly(m);
    }
    forall i | 0 <= i < |ws|
      ensures Alone(ws[i], tools, decode, embedded) == Current(ws[i], tools, decode, embedded)
    {
    }
    if ws != [] {
    }
  }

  // ---------------------------------------------------------------- observation

  /** The literal that betrays a wrapper stands in the scanned part of the text. */
  ghost predicate ShowsWrapper(text: string) {
    exists before, after :: text == before + "{\"tool_call\"" + after && |before| + 12 <= 1_048_576
  }

  /** The tier that decides is the reply as a whole if it offers a wrapper, else the objects found in the text; without
      any wrapper the literal alone makes the text malformed. */
  ghost predicate Observes(text: string, tools: seq<ToolSpec>, decode: Decoder, whole: Option<Any>, d: Disposition) {
    var first, second := Candidates(whole), Embedded(text, decode);
    if exists k :: 0 <= k < |first| && Wraps(first[k]) then Classified(d, first, tools, decode, false)
    else if exists k :: 0 <= k < |second| && Wraps(second[k]) then Classified(d, second, tools, decode, true)
    else d == if ShowsWrapper(text) then Malformed else WrapperNone
  }

  lemma {:induction false} ContainsExactly(s: string, p: string)
    ensures Contains(s, p) <==> exists before, after :: s == before + p + after
  {
    if i :| 0 <= i <= |s| && HasPrefix(s[i..], p) {
      assert s == s[..i] + p + s[i..][|p|..];
    }
    if before, after :| s == before + p + after {
      assert s[|before|..][..|p|] == p;
      assert HasPrefix(s[|before|..], p);
    }
  }

  lemma {:induction false} ShowsExactly(text: string)
    ensures Contains(ScanPrefix(text), "{\"tool_call\"") <==> ShowsWrapper(text)
  {
    hide Contains;
    var s, p := ScanPrefix(text), "{\"tool_call\"";
    assert |p| == 12;
    ContainsExactly(s, p);
    if before, after :| s == before + p + after {
      InPrefix(text, before, p, after);
    }
    if before, after :| text == before + p + after && |before| + 12 <= 1_048_576 {
      assert s == before + p + s[|before| + 12..];
    }
  }

  lemma {:induction false} InPrefix(text: string, before: string, p: string, after: string)
    requires ScanPrefix(text) == before + p + after
    ensures text == before + p + text[|before + p|..] && |before| + |p| <= MAX_SCAN_BYTES
  {
  }

  /** The observer classifies a reply within the scan budget by what it decodes to as a whole, a longer one by its
      text alone. */
  lemma {:induction false} ObservedExactly(text: string, tools: seq<ToolSpec>, decode: Decoder, d: Disposition)
    ensures
      Observation(text, tools, decode) == Done(d) <==>
        exists v :: (if |text| <= MAX_SCAN_BYTES then DecodesTo(text, decode, v) else v == None)
                    && Observes(text, tools, decode, v, d)
  {
    hide Whole, DecodesTo, Candidates, Embedded, Classification, Contains, ShowsWrapper, Observes;
    var seen := Observation(text, tools, decode);
    forall v ensures Whole(text, decode) == Done(v) <==> DecodesTo(text, decode, v) {
      WholeExactly(text, decode, v);
    }
    match WholeForObserver(text, decode)
    case Panicked =>
    case Done(whole) =>
      ObservedTiers(text, tools, decode, whole, d);
  }

  lemma {:induction false} ObservedTiers(
    text: string, tools: seq<ToolSpec>, decode: Decoder, whole: Option<Any>, d: Disposition)
    requires WholeForObserver(text, decode) == Done(whole)
    ensures Observation(text, tools, decode) == Done(d) <==> Observes(text, tools, decode, whole, d)
  {
    hide Whole, WholeForObserver, Candidates, Embedded, Classification, Contains, ShowsWrapper, Wraps, AtMostOneWraps;
    hide NamesOffered, NeedsDispatcher;
    ShowsExactly(text);
    ClassificationExactly(Candidates(whole), tools, decode, false);
    ClassificationExactly(Embedded(text, decode), tools, decode, true);
  }
}
