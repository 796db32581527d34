/** Bounded capture of raw agent frames: the UTF-8 clip and the ring (internal/capture/ring.go) and the
    on/off gate over it (internal/capture/controller.go). */
module CaptureRing {
  import opened Sequences
  import opened TailRing

  // ---------------------------------------------------------------- UTF-8

  type Byte = b: int | 0 <= b < 256

  /** A Unicode scalar value: what section 3 of RFC 3629 encodes. */
  type Scalar = c: int | 0 <= c < 0xD800 || 0xE000 <= c < 0x11_0000

  function Continuation(c: nat): Byte {
    0x80 + c % 64
  }

  function Encode(c: Scalar): seq<Byte> {
    if c < 0x80 then [c]
    else if c < 0x800 then [0xC0 + c / 64, Continuation(c)]
    else if c < 0x1_0000 then [0xE0 + c / 4096, Continuation(c / 64), Continuation(c)]
    else [0xF0 + c / 262144, Continuation(c / 4096), Continuation(c / 64), Continuation(c)]
  }

  function EncodeAll(cs: seq<Scalar>): seq<Byte> {
    if cs == [] then [] else EncodeAll(cs[..|cs| - 1]) + Encode(cs[|cs| - 1])
  }

  predicate RuneStart(b: Byte) {
    !(0x80 <= b < 0xC0)
  }

  /** For any bytes: the longest prefix within the cap that stops before a rune-start byte. */
  method TruncateUTF8(s: seq<Byte>, maxLen: nat) returns (r: seq<Byte>)
    ensures r == Clip(s, maxLen)
  {
    if |s| <= maxLen {
      return s;
    }
    var n := maxLen;
    while n > 0 && !RuneStart(s[n])
      invariant 0 <= n <= maxLen && CutPoint(s, n) == CutPoint(s, maxLen)
    {
      n := n - 1;
    }
    r := s[..n];
  }

  function CutPoint(s: seq<Byte>, n: nat): (r: nat)
    requires n < |s|
    ensures r <= n && (r == 0 || RuneStart(s[r])) && forall k :: r < k <= n ==> !RuneStart(s[k])
  {
    if n == 0 || RuneStart(s[n]) then n else CutPoint(s, n - 1)
  }

  function Clip(s: seq<Byte>, maxLen: nat): seq<Byte> {
    if |s| <= maxLen then s else s[..CutPoint(s, maxLen)]
  }

  lemma {:induction false} EncodeShape(c: Scalar)
    ensures 1 <= |Encode(c)| <= 4 && RuneStart(Encode(c)[0])
    ensures forall k :: 0 < k < |Encode(c)| ==> !RuneStart(Encode(c)[k])
  {
  }

  /** Valid UTF-8 is clipped to whole characters: the longest prefix of characters that fits, at most
      three bytes short of the cap. */
  lemma {:induction false} ClipKeepsWholeCharacters(cs: seq<Scalar>, maxLen: nat) returns (k: nat)
    ensures k <= |cs| && Clip(EncodeAll(cs), maxLen) == EncodeAll(cs[..k])
    ensures |EncodeAll(cs[..k])| <= maxLen
    ensures k < |cs| ==> |EncodeAll(cs[..k + 1])| > maxLen && |EncodeAll(cs[..k])| + 3 >= maxLen
  {
    hide Encode, CutPoint;
    if |EncodeAll(cs)| <= maxLen {
      k := |cs|;
      assert cs[..k] == cs;
      return;
    }
    var front, last := cs[..|cs| - 1], cs[|cs| - 1];
    if |EncodeAll(front)| <= maxLen {
      k := |cs| - 1;
      assert cs[..k + 1] == cs;
      CutIsTheLastBoundary(EncodeAll(front), last, maxLen);
    } else {
      k := ClipKeepsWholeCharacters(front, maxLen);
      assert front[..|front|] == front;
      assert front[..k] == cs[..k] && front[..k + 1] == cs[..k + 1];
      CutIgnoresLaterBytes(EncodeAll(front), Encode(last), maxLen);
    }
  }

  lemma {:induction false} CutIsTheLastBoundary(done: seq<Byte>, last: Scalar, maxLen: nat)
    requires |done| <= maxLen < |done + Encode(last)|
    ensures CutPoint(done + Encode(last), maxLen) == |done| && |done| + 3 >= maxLen
  {
    hide Encode;
    EncodeShape(last);
    var s := done + Encode(last);
    assert s[|done|] == Encode(last)[0];
    assert forall k :: |done| < k < |s| ==> s[k] == Encode(last)[k - |done|];
  }

  lemma {:induction false} CutIgnoresLaterBytes(s: seq<Byte>, more: seq<Byte>, n: nat)
    requires n < |s|
    ensures CutPoint(s + more, n) == CutPoint(s, n) && (s + more)[..CutPoint(s, n)] == s[..CutPoint(s, n)]
  {
    if n > 0 && !RuneStart(s[n]) {
      CutIgnoresLaterBytes(s, more, n - 1);
    }
  }

  // ---------------------------------------------------------------- the ring

  datatype Frame = Frame(num: nat, ts: int, name: string, params: seq<Byte>, bytes: nat)

  datatype Call = Call(ts: int, name: string, params: seq<Byte>)

  /** The frames of calls 1, 2, ... as the ring stores them. */
  function Frames(calls: seq<Call>, capBytes: nat): (r: seq<Frame>)
    ensures |r| == |calls|
  {
    seq(|calls|, i requires 0 <= i < |calls| =>
      Frame(i + 1, calls[i].ts, calls[i].name, Clip(calls[i].params, capBytes), |calls[i].params|))
  }

  lemma {:induction false} FramesPush(calls: seq<Call>, capBytes: nat, c: Call)
    ensures Frames(calls + [c], capBytes)
         == Frames(calls, capBytes) + [Frame(|calls| + 1, c.ts, c.name, Clip(c.params, capBytes), |c.params|)]
  {
  }

  class Ring {
    const buf: array<Frame>
    const capBytes: nat
    var next: nat
    var count: nat
    var num: nat
    /** The calls recorded since the ring was last empty. */
    ghost var calls: seq<Call>

    ghost predicate Valid()
      reads this, buf
    {
      && 0 < buf.Length && 0 < capBytes && next < buf.Length && count <= buf.Length
      && (count < buf.Length ==> next == count)
      && num == |calls|
      && Contents() == LastN(Frames(calls, capBytes), buf.Length)
    }

    ghost function Contents(): seq<Frame>
      reads this, buf
      requires next < buf.Length && count <= buf.Length
    {
      Unwound(buf[..], next, count == buf.Length)
    }

    /** Sizes of zero or less are floored to one. */
    constructor (size: int, cap: int)
      ensures Valid() && calls == [] && fresh(buf)
      ensures buf.Length == (if size <= 0 then 1 else size) && capBytes == (if cap <= 0 then 1 else cap)
    {
      buf := new Frame[if size <= 0 then 1 else size](_ => Frame(0, 0, "", [], 0));
      capBytes := if cap <= 0 then 1 else cap;
      next, count, num, calls := 0, 0, 0, [];
    }

    method Record(ts: int, name: string, params: seq<Byte>)
      requires Valid()
      modifies this, buf
      ensures Valid() && calls == old(calls) + [Call(ts, name, params)]
    {
      hide LastN, Unwound, Frames, Clip;
      ghost var call := Call(ts, name, params);
      ghost var slots := buf[..];
      num := num + 1;
      var clipped := TruncateUTF8(params, capBytes);
      var f := Frame(num, ts, name, clipped, |params|);
      FramesPush(calls, capBytes, call);
      LastNPush(Frames(calls, capBytes), buf.Length, f);
      NextSlot(next, buf.Length);
      UnwoundPush(slots, next, count == buf.Length, f);
      buf[next] := f;
      assert buf[..] == slots[next := f];
      next := (next + 1) % buf.Length;
      if count < buf.Length {
        count := count + 1;
      }
      calls := calls + [call];
    }

    /** The last `size` recorded frames, oldest first, numbered consecutively up to the number recorded. */
    method Snapshot() returns (out: seq<Frame>)
      requires Valid()
      ensures out == LastN(Frames(calls, capBytes), buf.Length)
      ensures forall i :: 0 <= i < |out| ==> out[i].num == |calls| - |out| + i + 1
    {
      out := [];
      var start := 0;
      if count == buf.Length {
        start := next;
      }
      for i := 0 to count
        invariant out == Contents()[..i]
      {
        var j := (start + i) % buf.Length;
        assert j == if start + i < buf.Length then start + i else start + i - buf.Length by {
          WrapOnce(start + i, buf.Length);
        }
        out := out + [buf[j]];
      }
    }

    method Clear()
      requires Valid()
      modifies this
      ensures Valid() && calls == []
    {
      next, count, num, calls := 0, 0, 0, [];
    }
  }

  lemma {:induction false} WrapOnce(x: nat, n: nat)
    requires x < 2 * n
    ensures x % n == if x < n then x else x - n
  {
    if x >= n {
      assert x == n + (x - n);
    }
  }

  // ---------------------------------------------------------------- the gate

  datatype Op = DoRecord(call: Call) | DoEnable | DoDisable | DoClear

  datatype Gate = Gate(enabled: bool, calls: seq<Call>)

  function Apply(g: Gate, op: Op): Gate {
    match op
    case DoRecord(c) => if g.enabled then g.(calls := g.calls + [c]) else g
    case DoEnable => Gate(true, [])
    case DoDisable => g.(enabled := false)
    case DoClear => g.(calls := [])
  }

  class Controller {
    const ring: Ring
    var enabled: bool

    ghost predicate Valid()
      reads this, ring, ring.buf
    {
      ring.Valid()
    }

    ghost function View(): Gate
      reads this, ring
    {
      Gate(enabled, ring.calls)
    }

    constructor (size: int, cap: int, initialEnabled: bool)
      ensures Valid() && View() == Gate(initialEnabled, []) && fresh(ring) && fresh(ring.buf)
    {
      ring := new Ring(size, cap);
      enabled := initialEnabled;
    }

    method Record(ts: int, name: string, params: seq<Byte>)
      requires Valid()
      modifies ring, ring.buf
      ensures Valid() && View() == Apply(old(View()), DoRecord(Call(ts, name, params)))
    {
      if enabled {
        ring.Record(ts, name, params);
      }
    }

    method Enable()
      requires Valid()
      modifies this, ring
      ensures Valid() && View() == Apply(old(View()), DoEnable)
    {
      ring.Clear();
      enabled := true;
    }

    method Disable()
      requires Valid()
      modifies this
      ensures Valid() && View() == Apply(old(View()), DoDisable)
    {
      enabled := false;
    }

    method Clear()
      requires Valid()
      modifies ring
      ensures Valid() && View() == Apply(old(View()), DoClear)
    {
      ring.Clear();
    }

    method Snapshot() returns (out: seq<Frame>)
      requires Valid()
      ensures out == LastN(Frames(View().calls, ring.capBytes), ring.buf.Length)
    {
      out := ring.Snapshot();
    }
  }

  function ApplyAll(g: Gate, ops: seq<Op>): Gate {
    if ops == [] then g else Apply(ApplyAll(g, ops[..|ops| - 1]), ops[|ops| - 1])
  }

  /** The gate just before operation `i`: what the latest Enable or Disable said. */
  predicate GateBefore(initial: bool, ops: seq<Op>, i: nat)
    requires i <= |ops|
  {
    (initial && forall j :: 0 <= j < i ==> ops[j] != DoDisable)
    || exists j :: 0 <= j < i && ops[j] == DoEnable && forall k :: j < k < i ==> ops[k] != DoDisable
  }

  /** Operation `i` recorded a call that no later operation wiped. */
  predicate Survives(initial: bool, ops: seq<Op>, i: nat)
    requires i < |ops|
  {
    && ops[i].DoRecord? && GateBefore(initial, ops, i)
    && forall j :: i < j < |ops| ==> ops[j] != DoEnable && ops[j] != DoClear
  }

  /** The surviving calls among the first `n` operations, in order. */
  ghost function Surviving(initial: bool, ops: seq<Op>, n: nat): seq<Call>
    requires n <= |ops|
  {
    if n == 0 then []
    else Surviving(initial, ops, n - 1) + if Survives(initial, ops, n - 1) then [ops[n - 1].call] else []
  }

  /** After any operations the ring holds exactly the calls made while the gate was on since the last
      Clear or Enable. */
  lemma {:induction false} CapturedSinceReset(initial: bool, ops: seq<Op>)
    ensures ApplyAll(Gate(initial, []), ops) == Gate(GateBefore(initial, ops, |ops|), Surviving(initial, ops, |ops|))
  {
    if ops == [] {
    } else {
      var n := |ops| - 1;
      var front := ops[..n];
      CapturedSinceReset(initial, front);
      GateExtends(initial, ops, n);
      if ops[n] == DoEnable || ops[n] == DoClear {
        NothingSurvivesReset(initial, ops, n + 1);
      } else {
        SurvivalExtends(initial, ops, n);
      }
    }
  }

  lemma {:induction false} GateExtends(initial: bool, ops: seq<Op>, n: nat)
    requires n == |ops| - 1
    ensures forall i :: 0 <= i <= n ==> GateBefore(initial, ops, i) == GateBefore(initial, ops[..n], i)
    ensures GateBefore(initial, ops, |ops|) <==>
            ops[n] == DoEnable || (ops[n] != DoDisable && GateBefore(initial, ops[..n], n))
  {
    if ops[n] != DoEnable && ops[n] != DoDisable && GateBefore(initial, ops, n) {
      if j :| 0 <= j < n && ops[j] == DoEnable && forall k :: j < k < n ==> ops[k] != DoDisable {
        assert forall k :: j < k < |ops| ==> ops[k] != DoDisable;
      }
    }
  }

  lemma {:induction false} NothingSurvivesReset(initial: bool, ops: seq<Op>, n: nat)
    requires ops != [] && n <= |ops| && (ops[|ops| - 1] == DoEnable || ops[|ops| - 1] == DoClear)
    ensures Surviving(initial, ops, n) == []
  {
    hide Survives;
    if n == 0 {
    } else {
      ResetWipes(initial, ops, n - 1);
      NothingSurvivesReset(initial, ops, n - 1);
    }
  }

  lemma {:induction false} ResetWipes(initial: bool, ops: seq<Op>, i: nat)
    requires i < |ops| && (ops[|ops| - 1] == DoEnable || ops[|ops| - 1] == DoClear)
    ensures !Survives(initial, ops, i)
  {
    hide GateBefore;
  }

  lemma {:induction false} SurvivesAlike(initial: bool, ops: seq<Op>, i: nat)
    requires i < |ops| - 1 && ops[|ops| - 1] != DoEnable && ops[|ops| - 1] != DoClear
    ensures Survives(initial, ops, i) == Survives(initial, ops[..|ops| - 1], i)
  {
    hide GateBefore;
    GateExtends(initial, ops, |ops| - 1);
  }

  lemma {:induction false} SurvivalExtends(initial: bool, ops: seq<Op>, n: nat)
    requires n < |ops| && ops[|ops| - 1] != DoEnable && ops[|ops| - 1] != DoClear
    ensures Surviving(initial, ops, n) == Surviving(initial, ops[..|ops| - 1], n)
  {
    hide Survives;
    if n == 0 {
    } else {
      SurvivalExtends(initial, ops, n - 1);
      SurvivesAlike(initial, ops, n - 1);
    }
  }
}
