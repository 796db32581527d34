/** Correlation of JSON-RPC responses with waiting callers (internal/acp/dispatcher.go). Each step is
    one critical section; route's look-up and its send after unlocking are two steps. */
module AcpDispatcher {
  import opened Options
  import opened GoStrings

  const CLOSE_SENTINEL_CODE: int := -32099
  const UINT64_LIMIT: nat := 18_446_744_073_709_551_616

  datatype RpcError = RpcError(code: int, message: string)

  /** `id` is the raw JSON of the field, empty when absent. */
  datatype Frame = Frame(id: string, method_: string, error: Option<RpcError>, result: string)

  /** What a route call does with a frame before it looks at the pending map. */
  datatype Kind = Notify | Drop | Response(num: nat)

  predicate HasID(f: Frame) {
    f.id != "" && f.id != "null"
  }

  predicate AllDigits(s: string) {
    forall i :: 0 <= i < |s| ==> '0' <= s[i] <= '9'
  }

  /** Decoding a JSON id as uint64: plain digits without a leading zero, in range. */
  function ParseUint(s: string): (r: Option<nat>)
  {
    if s != "" && AllDigits(s) && (s == "0" || s[0] != '0') && Number(s) < UINT64_LIMIT then Some(Number(s)) else None
  }

  function Classify(f: Frame): Kind {
    if f.method_ != "" then Notify
    else if !HasID(f) then Drop
    else match ParseUint(f.id) case Some(n) => Response(n) case None => Drop
  }

  function Sentinel(message: string): Frame {
    Frame("", "", Some(RpcError(CLOSE_SENTINEL_CODE, message)), "")
  }

  /** Non-blocking send of `f` to the channels in `targets`: full channels keep what they have. */
  function Offer(buffers: seq<seq<Frame>>, targets: set<nat>, f: Frame): (r: seq<seq<Frame>>)
    ensures |r| == |buffers|
  {
    seq(|buffers|, c requires 0 <= c < |buffers| => if c in targets && buffers[c] == [] then [f] else buffers[c])
  }

  // ---------------------------------------------------------------- the dispatcher object

  class Dispatcher {
    /** Waiting requests, and the buffered-1 channels handed out so far by number. */
    var pending: map<nat, nat>
    var buffers: seq<seq<Frame>>
    var notified: seq<Frame>

    ghost predicate Valid()
      reads this
    {
      forall id :: id in pending ==> pending[id] < |buffers|
    }

    /** The fields are the visible part of an interleaving state: each method below takes the step of
        the same name on every such state. */
    ghost predicate Shows(s: State)
      reads this
    {
      s.pending == pending && s.buffers == buffers && s.notified == notified
    }

    constructor ()
      ensures Valid() && pending == map[] && buffers == [] && notified == []
    {
      pending, buffers, notified := map[], [], [];
    }

    method Register(id: nat) returns (ch: nat)
      requires Valid()
      modifies this
      ensures Valid() && ch == |old(buffers)| && notified == old(notified)
      ensures pending == old(pending)[id := ch] && buffers == old(buffers) + [[]]
      ensures forall s :: old(Shows(s)) && CanTake(s, Step.Register(id)) ==> Shows(Next(s, Step.Register(id)))
    {
      ch := |buffers|;
      buffers := buffers + [[]];
      pending := pending[id := ch];
    }

    method Cancel(id: nat)
      requires Valid()
      modifies this`pending
      ensures Valid() && pending == old(pending) - {id}
      ensures forall s :: old(Shows(s)) && CanTake(s, Step.Cancel(id)) ==> Shows(Next(s, Step.Cancel(id)))
    {
      pending := pending - {id};
    }

    /** The first half of route: the channel to send to after unlocking, if any. A frame is passed on if and only
        if it has a method, whatever its id; one without takes the channel of the pending request whose decimal
        numeral its id is, whatever its error and result. */
    method Route(frame: Frame) returns (ch: Option<nat>)
      requires Valid()
      modifies this
      ensures Valid() && buffers == old(buffers)
      ensures notified == if frame.method_ != "" then old(notified) + [frame] else old(notified)
      ensures forall n: nat ::
          n < UINT64_LIMIT && frame.id == Decimal(n) && n in old(pending) && frame.method_ == "" ==>
          ch == Some(old(pending)[n]) && old(pending)[n] < |buffers| && pending == old(pending) - {n}
      ensures (forall n: nat ::
                 n < UINT64_LIMIT && frame.id == Decimal(n) && n in old(pending) ==> frame.method_ != "") ==>
          ch == None && pending == old(pending)
      ensures forall s, t :: old(Shows(s)) && CanTake(s, RouteLookup(t, frame)) ==>
          Shows(Next(s, RouteLookup(t, frame)))
    {
      hide ParseUint, Decimal;
      ch := None;
      ParsesOnlyNumerals(frame.id);
      if frame.method_ != "" {
        notified := notified + [frame];
        return;
      }
      if !HasID(frame) {
        return;
      }
      var num := ParseUint(frame.id);
      if num.None? {
        return;
      }
      if num.value in pending {
        ch := Some(pending[num.value]);
        pending := pending - {num.value};
      }
    }

    /** The send after unlocking; it can only proceed into an empty buffer. */
    method Send(ch: nat, frame: Frame)
      requires Valid() && ch < |buffers| && buffers[ch] == []
      modifies this`buffers
      ensures Valid() && buffers == old(buffers)[ch := [frame]]
      ensures forall s, t :: old(Shows(s)) && CanTake(s, RouteSend(t)) && s.held[t] == Held(ch, frame) ==>
          Shows(Next(s, RouteSend(t)))
    {
      assert buffers[ch] + [frame] == [frame];
      buffers := buffers[ch := [frame]];
    }

    method DrainAll(message: string)
      requires Valid()
      modifies this
      ensures Valid() && pending == map[] && notified == old(notified)
      ensures buffers == Offer(old(buffers), old(pending).Values, Sentinel(message))
      ensures forall s :: old(Shows(s)) && CanTake(s, Drain(message)) ==> Shows(Next(s, Drain(message)))
    {
      ghost var all, before, done := pending, buffers, {};
      while pending != map[]
        invariant Valid() && notified == old(notified) && |buffers| == |before|
        invariant buffers == Offer(before, done, Sentinel(message))
        invariant forall id :: id in pending ==> id in all && pending[id] == all[id]
        invariant done <= all.Values
        invariant forall id :: id in all ==> id in pending || all[id] in done
        decreases |pending|
      {
        var id :| id in pending;
        var ch := pending[id];
        if buffers[ch] == [] {
          buffers := buffers[ch := [Sentinel(message)]];
        }
        done := done + {ch};
        pending := pending - {id};
      }
      assert done == all.Values;
    }
  }

  // ---------------------------------------------------------------- interleavings

  /** A route call between its look-up and its send. */
  datatype Held = Held(ch: nat, frame: Frame)

  /** The object's fields, the route calls in flight, and per channel: its request id, everything ever
      sent to it, and whether its request was cancelled while still pending; last, the frames passed on. */
  datatype State = State(
    pending: map<nat, nat>, buffers: seq<seq<Frame>>, held: map<nat, Held>,
    ids: seq<nat>, sent: seq<seq<Frame>>, withdrawn: set<nat>, notified: seq<Frame>)

  datatype Step =
    | Register(id: nat)
    | Cancel(id: nat)
    | RouteLookup(thread: nat, frame: Frame)
    | RouteSend(thread: nat)
    | Drain(message: string)
    | Receive(ch: nat)

  /** A fresh id per request, a route call per thread at a time, and channel operations that can proceed. */
  predicate Enabled(s: State, step: Step) {
    match step
    case Register(id) => id !in s.ids
    case Cancel(_) => true
    case RouteLookup(t, _) => t !in s.held
    case RouteSend(t) => t in s.held && s.held[t].ch < |s.buffers| && s.buffers[s.held[t].ch] == []
    case Drain(_) => true
    case Receive(ch) => ch < |s.buffers| && s.buffers[ch] != []
  }

  predicate CanTake(s: State, step: Step) {
    |s.sent| == |s.buffers| && Enabled(s, step)
  }

  function Next(s: State, step: Step): State
    requires CanTake(s, step)
  {
    match step
    case Register(id) =>
      s.(pending := s.pending[id := |s.buffers|], buffers := s.buffers + [[]], ids := s.ids + [id],
         sent := s.sent + [[]])
    case Cancel(id) =>
      if id in s.pending then s.(pending := s.pending - {id}, withdrawn := s.withdrawn + {s.pending[id]}) else s
    case RouteLookup(t, frame) =>
      (match Classify(frame)
       case Response(n) =>
         if n in s.pending
         then s.(pending := s.pending - {n}, held := s.held[t := Held(s.pending[n], frame)])
         else s
       case Notify => s.(notified := s.notified + [frame])
       case Drop => s)
    case RouteSend(t) =>
      var Held(ch, frame) := s.held[t];
      s.(held := s.held - {t}, buffers := s.buffers[ch := s.buffers[ch] + [frame]],
         sent := s.sent[ch := s.sent[ch] + [frame]])
    case Drain(message) =>
      s.(pending := map[],
         buffers := Offer(s.buffers, s.pending.Values, Sentinel(message)),
         sent := seq(|s.sent|, c requires 0 <= c < |s.sent| =>
                   if c in s.pending.Values && s.buffers[c] == [] then s.sent[c] + [Sentinel(message)] else s.sent[c]))
    case Receive(ch) =>
      s.(buffers := s.buffers[ch := s.buffers[ch][1..]])
  }

  function Init(): State {
    State(map[], [], map[], [], [], {}, [])
  }

  predicate IsHeld(s: State, ch: nat) {
    exists t :: t in s.held && s.held[t].ch == ch
  }

  /** The frame belongs to the request with this id, or says that the client is closing. */
  predicate Fits(f: Frame, id: nat) {
    || (f.method_ == "" && f.id == Decimal(id))
    || (f.id == "" && f.error.Some? && f.error.value.code == CLOSE_SENTINEL_CODE)
  }

  ghost predicate Shape(s: State) {
    && |s.buffers| == |s.ids| == |s.sent|
    && (forall w :: w in s.withdrawn ==> w < |s.ids|)
    && (forall i, j :: 0 <= i < j < |s.ids| ==> s.ids[i] != s.ids[j])
    && (forall id :: id in s.pending ==> s.pending[id] < |s.ids| && s.ids[s.pending[id]] == id)
    && (forall t :: t in s.held ==> s.held[t].ch < |s.ids| && s.ids[s.held[t].ch] !in s.pending)
    && (forall t, u :: t in s.held && u in s.held && t != u ==> s.held[t].ch != s.held[u].ch)
    && (forall t :: t in s.held ==>
          s.held[t].frame.method_ == "" && ParseUint(s.held[t].frame.id) == Some(s.ids[s.held[t].ch]))
  }

  /** Where a channel's request stands. */
  ghost predicate ChannelOk(s: State, c: nat)
    requires Shape(s) && c < |s.ids|
  {
    && |s.sent[c]| <= 1 && (s.buffers[c] == [] || s.buffers[c] == s.sent[c])
    && (s.sent[c] != [] ==> Fits(s.sent[c][0], s.ids[c]))
    && (s.ids[c] in s.pending ==> s.sent[c] == [] && c !in s.withdrawn && !IsHeld(s, c))
    && (IsHeld(s, c) ==> s.sent[c] == [] && c !in s.withdrawn)
    && (c in s.withdrawn ==> s.sent[c] == [])
    && (s.ids[c] in s.pending || IsHeld(s, c) || c in s.withdrawn || s.sent[c] != [])
  }

  ghost predicate Inv(s: State) {
    Shape(s) && forall c :: 0 <= c < |s.ids| ==> ChannelOk(s, c)
  }

  ghost predicate Run(s: State, steps: seq<Step>, s': State)
    decreases |steps|
  {
    if steps == [] then s == s'
    else CanTake(s, steps[0]) && Run(Next(s, steps[0]), steps[1..], s')
  }

  lemma {:induction false} InvRegister(s: State, id: nat)
    requires Inv(s) && Enabled(s, Register(id))
    ensures Inv(Next(s, Register(id)))
  {
    hide ParseUint, Fits;
    var s' := Next(s, Register(id));
    assert forall c :: 0 <= c < |s.ids| ==>
        s'.ids[c] == s.ids[c] && s'.sent[c] == s.sent[c] && s'.buffers[c] == s.buffers[c];
    assert forall c :: IsHeld(s', c) <==> IsHeld(s, c);
    assert id !in s.pending;
    forall c | 0 <= c < |s'.ids| ensures ChannelOk(s', c) {
      if c < |s.ids| { assert ChannelOk(s, c); }
    }
  }

  lemma {:induction false} InvCancel(s: State, id: nat)
    requires Inv(s)
    ensures Inv(Next(s, Cancel(id)))
  {
    var s' := Next(s, Cancel(id));
    forall c | 0 <= c < |s'.ids| ensures ChannelOk(s', c) {
      assert ChannelOk(s, c);
      assert IsHeld(s', c) <==> IsHeld(s, c);
    }
  }

  lemma {:induction false} InvLookup(s: State, t: nat, frame: Frame)
    requires Inv(s) && Enabled(s, RouteLookup(t, frame))
    ensures Inv(Next(s, RouteLookup(t, frame)))
  {
    hide ParseUint;
    var s' := Next(s, RouteLookup(t, frame));
    if Classify(frame) == Notify {
      forall c | 0 <= c < |s'.ids| ensures ChannelOk(s', c) {
        assert ChannelOk(s, c);
        assert IsHeld(s', c) <==> IsHeld(s, c);
      }
    } else if s' != s {
      var n := Classify(frame).num;
      LookupShape(s, t, frame, n);
      forall c | 0 <= c < |s'.ids| ensures ChannelOk(s', c) {
        LookupChannel(s, t, frame, n, c);
      }
    }
  }

  lemma {:induction false} LookupShape(s: State, t: nat, frame: Frame, n: nat)
    requires Inv(s) && t !in s.held && Classify(frame) == Response(n) && n in s.pending
    ensures Shape(s.(pending := s.pending - {n}, held := s.held[t := Held(s.pending[n], frame)]))
  {
    hide ParseUint;
    var ch := s.pending[n];
    assert ChannelOk(s, ch);
    forall u | u in s.held ensures s.held[u].ch != ch {
      assert IsHeld(s, s.held[u].ch);
    }
  }

  lemma {:induction false} LookupChannel(s: State, t: nat, frame: Frame, n: nat, c: nat)
    requires Inv(s) && t !in s.held && Classify(frame) == Response(n) && n in s.pending && c < |s.ids|
    requires Shape(s.(pending := s.pending - {n}, held := s.held[t := Held(s.pending[n], frame)]))
    ensures ChannelOk(s.(pending := s.pending - {n}, held := s.held[t := Held(s.pending[n], frame)]), c)
  {
    hide ParseUint, Fits;
    var ch := s.pending[n];
    var s' := s.(pending := s.pending - {n}, held := s.held[t := Held(ch, frame)]);
    assert ChannelOk(s, c) && ChannelOk(s, ch);
    if IsHeld(s, c) {
      var u :| u in s.held && s.held[u].ch == c;
      assert s'.held[u].ch == c;
    }
    if c == ch {
      assert s'.held[t].ch == c;
    } else if IsHeld(s', c) {
      var u :| u in s'.held && s'.held[u].ch == c;
      assert s.held[u].ch == c;
    }
  }

  lemma {:induction false} InvSend(s: State, t: nat)
    requires Inv(s) && Enabled(s, RouteSend(t))
    ensures Inv(Next(s, RouteSend(t)))
  {
    hide ParseUint, Decimal;
    var s' := Next(s, RouteSend(t));
    var ch := s.held[t].ch;
    ParsesOnlyNumerals(s.held[t].frame.id);
    assert IsHeld(s, ch) && ChannelOk(s, ch);
    forall c | 0 <= c < |s'.ids| ensures ChannelOk(s', c) {
      assert ChannelOk(s, c);
      if IsHeld(s, c) && c != ch {
        var u :| u in s.held && s.held[u].ch == c;
        assert u in s'.held && s'.held[u].ch == c;
      }
      if IsHeld(s', c) {
        var u :| u in s'.held && s'.held[u].ch == c;
        assert u in s.held && s.held[u].ch == c && u != t;
      }
    }
  }

  lemma {:induction false} InvDrain(s: State, message: string)
    requires Inv(s)
    ensures Inv(Next(s, Drain(message)))
  {
    hide Fits;
    var s' := Next(s, Drain(message));
    SentinelFits(message);
    forall c | 0 <= c < |s'.ids| ensures ChannelOk(s', c) {
      assert ChannelOk(s, c);
      assert IsHeld(s', c) <==> IsHeld(s, c);
      assert c in s.pending.Values <==> s.ids[c] in s.pending;
    }
  }

  lemma {:induction false} SentinelFits(message: string)
    ensures forall id :: Fits(Sentinel(message), id)
  {
    hide Decimal;
  }

  lemma {:induction false} InvReceive(s: State, ch: nat)
    requires Inv(s) && Enabled(s, Receive(ch))
    ensures Inv(Next(s, Receive(ch)))
  {
    var s' := Next(s, Receive(ch));
    forall c | 0 <= c < |s'.ids| ensures ChannelOk(s', c) {
      assert ChannelOk(s, c);
      assert IsHeld(s', c) <==> IsHeld(s, c);
    }
  }

  lemma {:induction false} InvStep(s: State, step: Step)
    requires Inv(s) && Enabled(s, step)
    ensures Inv(Next(s, step))
  {
    hide Inv, Next;
    match step
    case Register(id) => InvRegister(s, id);
    case Cancel(id) => InvCancel(s, id);
    case RouteLookup(t, frame) => InvLookup(s, t, frame);
    case RouteSend(t) => InvSend(s, t);
    case Drain(message) => InvDrain(s, message);
    case Receive(ch) => InvReceive(s, ch);
  }

  lemma {:induction false} InvRun(s: State, steps: seq<Step>, s': State)
    requires Inv(s) && Run(s, steps, s')
    ensures Inv(s')
    decreases |steps|
  {
    hide Next, Enabled;
    if steps == [] {
    } else {
      InvStep(s, steps[0]);
      InvRun(Next(s, steps[0]), steps[1..], s');
    }
  }

  // ---------------------------------------------------------------- main results

  ghost predicate Reachable(s: State) {
    exists steps :: Run(Init(), steps, s)
  }

  lemma {:induction false} InvReachable(s: State)
    requires Reachable(s)
    ensures Inv(s)
  {
    var steps :| Run(Init(), steps, s);
    InvRun(Init(), steps, s);
  }

  /** Over every run a channel receives at most one frame, and that frame answers its own request or
      is the close sentinel. */
  lemma {:induction false} OneFittingFramePerChannel(s: State, c: nat)
    requires Reachable(s) && c < |s.ids|
    ensures c < |s.sent| && |s.sent[c]| <= 1 && (s.sent[c] != [] ==> Fits(s.sent[c][0], s.ids[c]))
  {
    InvReachable(s);
    assert ChannelOk(s, c);
  }

  /** The send after unlocking never blocks, and a drain never finds a pending channel occupied. */
  lemma {:induction false} SendsNeverBlock(s: State)
    requires Reachable(s)
    ensures forall t :: t in s.held ==> Enabled(s, RouteSend(t))
    ensures forall id :: id in s.pending ==> s.pending[id] < |s.buffers| && s.buffers[s.pending[id]] == []
  {
    InvReachable(s);
    forall t | t in s.held ensures Enabled(s, RouteSend(t)) {
      assert IsHeld(s, s.held[t].ch) && ChannelOk(s, s.held[t].ch);
    }
    forall id | id in s.pending ensures s.pending[id] < |s.buffers| && s.buffers[s.pending[id]] == [] {
      assert ChannelOk(s, s.pending[id]);
    }
  }

  /** A channel that has left the pending map never returns to it. */
  lemma {:induction false} SettledStays(s: State, steps: seq<Step>, s': State, c: nat)
    requires Inv(s) && Run(s, steps, s') && c < |s.ids| && s.ids[c] !in s.pending
    ensures Inv(s') && c < |s'.ids| && s'.ids[c] == s.ids[c] && s'.ids[c] !in s'.pending
    decreases |steps|
  {
    if steps == [] {
    } else {
      InvStep(s, steps[0]);
      SettledStep(s, steps[0], c);
      SettledStays(Next(s, steps[0]), steps[1..], s', c);
    }
  }

  lemma {:induction false} SettledStep(s: State, step: Step, c: nat)
    requires Inv(s) && Enabled(s, step) && c < |s.ids| && s.ids[c] !in s.pending
    ensures
      var s' := Next(s, step);
      c < |s'.ids| && s'.ids[c] == s.ids[c] && s'.ids[c] !in s'.pending
  {
    hide ParseUint;
  }

  /** Once a drain has run, every request registered before it has its frame, was cancelled while
      pending, or is held by a route call about to deliver; this stays so in every later state. */
  lemma {:induction false} DrainSettlesEveryone(
    before: seq<Step>, s: State, message: string, after: seq<Step>, s': State, c: nat)
    requires Run(Init(), before, s) && CanTake(s, Drain(message))
    requires Run(Next(s, Drain(message)), after, s')
    requires c < |s.ids|
    ensures Inv(s') && c < |s'.ids|
    ensures |s'.sent[c]| == 1 || c in s'.withdrawn || IsHeld(s', c)
  {
    InvRun(Init(), before, s);
    InvStep(s, Drain(message));
    SettledStays(Next(s, Drain(message)), after, s', c);
    assert ChannelOk(s', c);
  }

  // ---------------------------------------------------------------- which frames go where

  lemma {:induction false} DecimalLeads(n: nat)
    ensures Decimal(n) == "0" || Decimal(n)[0] != '0'
  {
    if n >= 10 {
      DecimalLeads(n / 10);
      NumberOfDecimal(n / 10);
      assert n / 10 >= 1;
      assert Number("0") == 0 by { assert "0"[..0] == ""; }
    } else if n > 0 {
      assert Decimal(n) == [Digit(n)];
    }
  }

  /** Digits without a leading zero are the numeral of the number they stand for. */
  lemma {:induction false} DecimalOfNumber(s: string)
    requires s != "" && AllDigits(s) && (s == "0" || s[0] != '0')
    ensures Decimal(Number(s)) == s && (s != "0" ==> Number(s) > 0)
    decreases |s|
  {
    var n := |s| - 1;
    var d := s[n] as int - '0' as int;
    assert Digit(d) == s[n];
    if n == 0 {
      assert Number(s) == 10 * Number(s[..0]) + d == d;
      assert s == [s[0]];
    } else {
      DecimalOfNumber(s[..n]);
      assert Number(s) == 10 * Number(s[..n]) + d;
      assert Number(s) / 10 == Number(s[..n]) && Number(s) % 10 == d;
      assert s == s[..n] + [s[n]];
    }
  }

  /** An id decodes to `n` if and only if it is the decimal numeral of `n`. */
  lemma {:induction false} ParsesExactly(s: string, n: nat)
    ensures ParseUint(s) == Some(n) <==> s == Decimal(n) && n < UINT64_LIMIT
  {
    hide Decimal, Number;
    DecimalLeads(n);
    NumberOfDecimal(n);
    if ParseUint(s).Some? {
      DecimalOfNumber(s);
    }
  }

  lemma {:induction false} ParsesOnlyNumerals(s: string)
    ensures forall n: nat :: ParseUint(s) == Some(n) <==> s == Decimal(n) && n < UINT64_LIMIT
    ensures ParseUint(s).Some? ==> s != "" && s != "null"
  {
    hide Decimal;
    forall n: nat ensures ParseUint(s) == Some(n) <==> s == Decimal(n) && n < UINT64_LIMIT {
      ParsesExactly(s, n);
    }
    assert s == "null" ==> s[0] == 'n';
  }

  /** The frames with a method among those routed, in order. */
  function WithMethod(steps: seq<Step>): seq<Frame> {
    if steps == [] then []
    else
      var first := if steps[0].RouteLookup? && steps[0].frame.method_ != "" then [steps[0].frame] else [];
      first + WithMethod(steps[1..])
  }

  lemma {:induction false} NotifiedStep(s: State, step: Step)
    requires CanTake(s, step)
    ensures Next(s, step).notified
         == if step.RouteLookup? && step.frame.method_ != "" then s.notified + [step.frame] else s.notified
  {
    hide ParseUint;
  }

  /** Over every run exactly the frames with a method are passed on, in the order they were routed: a request
      of the agent is never dropped for carrying an id. */
  lemma {:induction false} NotifiedExactly(s: State, steps: seq<Step>, s': State)
    requires Run(s, steps, s')
    ensures s'.notified == s.notified + WithMethod(steps)
    decreases |steps|
  {
    hide Next, Enabled, WithMethod;
    if steps == [] {
      var first := WithMethodNext(steps);
    } else {
      NotifiedStep(s, steps[0]);
      NotifiedExactly(Next(s, steps[0]), steps[1..], s');
      var first := WithMethodNext(steps);
      assert s'.notified == s.notified + first + WithMethod(steps[1..]);
    }
  }

  lemma {:induction false} WithMethodNext(steps: seq<Step>) returns (first: seq<Frame>)
    ensures steps == [] ==> WithMethod(steps) == [] == first
    ensures steps != [] ==>
              && first == (if steps[0].RouteLookup? && steps[0].frame.method_ != "" then [steps[0].frame] else [])
              && WithMethod(steps) == first + WithMethod(steps[1..])
  {
    first := if steps == [] then []
             else if steps[0].RouteLookup? && steps[0].frame.method_ != "" then [steps[0].frame] else [];
  }

  /** A frame that echoes the id we minted is handed to that very request, whatever its error and result; a frame
      that names no pending request, or has a method, reaches nobody's channel. */
  lemma {:induction false} EchoReachesItsCaller(s: State, thread: nat, frame: Frame)
    requires Reachable(s) && thread !in s.held
    ensures |s.sent| == |s.buffers|
    ensures forall id: nat :: id in s.pending && id < UINT64_LIMIT && frame.id == Decimal(id) && frame.method_ == "" ==>
        && s.pending[id] < |s.ids| && s.ids[s.pending[id]] == id
        && Next(s, RouteLookup(thread, frame))
           == s.(pending := s.pending - {id}, held := s.held[thread := Held(s.pending[id], frame)])
    ensures
      (forall id: nat :: id in s.pending && id < UINT64_LIMIT && frame.id == Decimal(id) ==> frame.method_ != "") ==>
        var s' := Next(s, RouteLookup(thread, frame));
        s' == s.(notified := s'.notified)
  {
    hide ParseUint, Decimal;
    InvReachable(s);
    ParsesOnlyNumerals(frame.id);
  }
}
