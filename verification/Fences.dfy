/** Removal of a code fence around a whole reply (internal/engine/coerce.go, StripFences). */
module Fences {
  import opened GoStrings

  const JSON_FENCE := "```json\n"
  const BARE_FENCE := "```\n"
  const CLOSE_FENCE := "\n```"

  /** `CrossedBounds` is the slice expression whose start lies past its end: the call panics. */
  datatype Fence = Stripped(inner: string) | NoFence(trimmed: string) | CrossedBounds

  function CutFence(t: string, open: string): Fence {
    if |open| <= |t| - |CLOSE_FENCE| then Stripped(t[|open|..|t| - |CLOSE_FENCE|]) else CrossedBounds
  }

  function StripFences(text: string): Fence {
    var t := TrimSpace(CollapseCrlf(text));
    if HasPrefix(t, JSON_FENCE) && HasSuffix(t, CLOSE_FENCE) then CutFence(t, JSON_FENCE)
    else if HasPrefix(t, BARE_FENCE) && HasSuffix(t, CLOSE_FENCE) then CutFence(t, BARE_FENCE)
    else NoFence(t)
  }

  /** Normalised, the text is a fence whose opening and closing line share their only newline. */
  predicate SharedNewline(text: string) {
    TrimSpace(CollapseCrlf(text)) in {"```json\n```", "```\n```"}
  }

  /** StripFences panics on exactly two normalised texts. */
  lemma {:induction false} PanicsExactlyOnSharedNewline(text: string)
    ensures StripFences(text).CrossedBounds? <==> SharedNewline(text)
  {
    var t := TrimSpace(CollapseCrlf(text));
    if HasSuffix(t, CLOSE_FENCE) {
      var tail := t[|t| - 4..];
      assert tail == CLOSE_FENCE && tail[0] == '\n' && tail[1] == '`' && tail[2] == '`' && tail[3] == '`';
      assert t[|t| - 4] == '\n' && t[|t| - 3] == '`' && t[|t| - 2] == '`' && t[|t| - 1] == '`';
      if HasPrefix(t, JSON_FENCE) && |t| < 12 {
        assert forall k :: 0 <= k < 8 ==> t[k] == t[..8][k];
        assert |t| == 11;
        assert t == t[..8] + t[8..];
        assert t == "```json\n```";
      } else if HasPrefix(t, BARE_FENCE) && |t| < 8 {
        assert forall k :: 0 <= k < 4 ==> t[k] == t[..4][k];
        assert |t| == 7;
        assert t == "```\n```";
      }
    }
    if t == "```json\n```" {
      assert t[..8] == JSON_FENCE && t[7..] == CLOSE_FENCE;
    } else if t == "```\n```" {
      assert t[..4] == BARE_FENCE && t[3..] == CLOSE_FENCE;
    }
  }

  /** A concrete input on which the call panics. */
  lemma {:induction false} SharedNewlinePanics()
    ensures StripFences("```json\n```").CrossedBounds?
  {
    var s := "```json\n```";
    PlainText(s);
    PanicsExactlyOnSharedNewline(s);
  }

  lemma {:induction false} PlainText(s: string)
    requires s != "" && '\r' !in s && !IsTrimmed(s[0]) && !IsTrimmed(s[|s| - 1])
    ensures TrimSpace(CollapseCrlf(s)) == s
  {
    CollapseNothing(s);
  }

  lemma {:induction false} CollapseNothing(s: string)
    requires '\r' !in s
    ensures CollapseCrlf(s) == s
  {
    if s == "" {
    } else {
      CollapseNothing(s[1..]);
      assert s == [s[0]] + s[1..];
    }
  }

  lemma {:induction false} TrimLeftDrops(pad: string, s: string)
    requires forall k :: 0 <= k < |pad| ==> IsTrimmed(pad[k])
    requires s != "" && !IsTrimmed(s[0])
    ensures TrimLeft(pad + s) == s
    decreases |pad|
  {
    if pad == "" {
      assert pad + s == s;
    } else {
      assert (pad + s)[1..] == pad[1..] + s;
      TrimLeftDrops(pad[1..], s);
    }
  }

  lemma {:induction false} TrimRightDrops(s: string, pad: string)
    requires forall k :: 0 <= k < |pad| ==> IsTrimmed(pad[k])
    requires s != "" && !IsTrimmed(s[|s| - 1])
    ensures TrimRight(s + pad) == s
    decreases |pad|
  {
    if pad == "" {
      assert s + pad == s;
    } else {
      assert (s + pad)[..|s + pad| - 1] == s + pad[..|pad| - 1];
      TrimRightDrops(s, pad[..|pad| - 1]);
    }
  }

  lemma {:induction false} CollapseSpaces(pad: string)
    requires forall k :: 0 <= k < |pad| ==> IsTrimmed(pad[k])
    ensures forall k :: 0 <= k < |CollapseCrlf(pad)| ==> IsTrimmed(CollapseCrlf(pad)[k])
  {
    if pad == "" {
    } else {
      if |pad| >= 2 && pad[0] == '\r' && pad[1] == '\n' {
        CollapseSpaces(pad[2..]);
      } else {
        CollapseSpaces(pad[1..]);
      }
    }
  }

  /** A carriage return right before the closing fence is part of the line ending there. */
  function WithoutLastCr(body: string): string {
    TrimSuffix(body, "\r")
  }

  /** Fencing a body, with any white space around the fence, is undone up to CRLF folding. */
  lemma {:induction false} FencedBodyComesBack(before: string, open: string, body: string, after: string)
    requires open == JSON_FENCE || open == BARE_FENCE
    requires forall k :: 0 <= k < |before| ==> IsTrimmed(before[k])
    requires forall k :: 0 <= k < |after| ==> IsTrimmed(after[k])
    ensures StripFences(before + (open + body + CLOSE_FENCE) + after) == Stripped(CollapseCrlf(WithoutLastCr(body)))
  {
    hide StripFences, CollapseCrlf, TrimLeft, TrimRight, WithoutLastCr;
    var core := open + body + CLOSE_FENCE;
    var inner := CollapseCrlf(WithoutLastCr(body));
    var core' := open + inner + CLOSE_FENCE;
    CollapseCore(open, body);
    assert before + core + after == before + (core + after);
    CollapseConcat(core, after);
    CollapseConcat(before, core + after);
    CollapseSpaces(before);
    CollapseSpaces(after);
    TrimCore(CollapseCrlf(before), core', CollapseCrlf(after));
    CutCore(open, inner);
    StripOf(before + core + after, core', open);
  }

  lemma {:induction false} StripOf(text: string, t: string, open: string)
    requires t == TrimSpace(CollapseCrlf(text)) && HasPrefix(t, open) && HasSuffix(t, CLOSE_FENCE)
    requires open == JSON_FENCE || (open == BARE_FENCE && !HasPrefix(t, JSON_FENCE))
    ensures StripFences(text) == CutFence(t, open)
  {
  }

  lemma {:induction false} CollapseCore(open: string, body: string)
    requires open == JSON_FENCE || open == BARE_FENCE
    ensures CollapseCrlf(open + body + CLOSE_FENCE) == open + CollapseCrlf(WithoutLastCr(body)) + CLOSE_FENCE
  {
    hide CollapseCrlf;
    var kept := WithoutLastCr(body);
    CollapseNothing(open);
    CollapseConcat(open, kept);
    if kept == body {
      assert body != "" ==> body[|body| - 1..] == [body[|body| - 1]];
      CollapseNothing(CLOSE_FENCE);
      CollapseConcat(open + body, CLOSE_FENCE);
    } else {
      assert body == kept + "\r";
      assert open + body + CLOSE_FENCE == (open + kept) + ("\r" + CLOSE_FENCE);
      CollapseConcat(open + kept, "\r" + CLOSE_FENCE);
      CollapseCrFence();
    }
  }

  lemma {:induction false} CollapseCrFence()
    ensures CollapseCrlf("\r" + CLOSE_FENCE) == CLOSE_FENCE
  {
    var rest := ("\r" + CLOSE_FENCE)[2..];
    CollapseNothing(rest);
    assert CLOSE_FENCE == "\n" + rest;
  }

  lemma {:induction false} TrimCore(before: string, core: string, after: string)
    requires core != "" && !IsTrimmed(core[0]) && !IsTrimmed(core[|core| - 1])
    requires forall k :: 0 <= k < |before| ==> IsTrimmed(before[k])
    requires forall k :: 0 <= k < |after| ==> IsTrimmed(after[k])
    ensures TrimSpace(before + (core + after)) == core
  {
    TrimLeftDrops(before, core + after);
    TrimRightDrops(core, after);
  }

  lemma {:induction false} CutCore(open: string, inner: string)
    requires open == JSON_FENCE || open == BARE_FENCE
    ensures
      var t := open + inner + CLOSE_FENCE;
      && HasPrefix(t, open) && HasSuffix(t, CLOSE_FENCE) && CutFence(t, open) == Stripped(inner)
      && (open == BARE_FENCE ==> !HasPrefix(t, JSON_FENCE))
  {
    var t := open + inner + CLOSE_FENCE;
    assert t[..|open|] == open;
    assert t[|t| - 4..] == CLOSE_FENCE;
    assert t[|open|..|t| - 4] == inner;
    assert t[3] == open[3];
  }
}
