/** Fan-out of log lines to viewers (internal/admin/tail.go) and the viewer's event loop
    (internal/admin/sse.go). Every critical section under the Tailer's mutex is one step; the viewer's
    two receives around a live line are separate steps. */
module TailFanout {
  import opened Options
  import opened Sequences
  import opened LogTail
  import opened TailRing

  const CHANNEL_SLOTS: nat := 16

  datatype Status = Status(state: string, sizeBytes: Option<int>, modifiedAt: string, level: string)

  /** A subscriber record: three buffered channels, the flag checked by senders and, apart from it,
      whether the channels really are closed. */
  datatype Sub = Sub(lines: seq<string>, batch: Option<seq<string>>, mail: Option<Status>, closed: bool, shut: bool)

  /** The tailer: `subs` are all records ever handed out, `listed` the current subscriber list. */
  datatype Tail = Tail(
    pushed: seq<string>, subs: seq<Sub>, listed: seq<nat>, running: bool, level: string, status: Status,
    loaded: bool, panicked: bool)

  datatype Message = Line(line: string) | Batch(lines: seq<string>) | Mail(status: Status)

  /** A non-blocking send: a full line channel drops, the status mailbox is emptied first. */
  function Put(s: Sub, m: Message): Sub {
    if s.closed then s
    else match m
      case Line(l) => if |s.lines| < CHANNEL_SLOTS then s.(lines := s.lines + [l]) else s
      case Batch(ls) => if s.batch.None? then s.(batch := Some(ls)) else s
      case Mail(st) => s.(mail := Some(st))
  }

  function Fan(subs: seq<Sub>, to: set<nat>, m: Message): (r: seq<Sub>)
    ensures |r| == |subs|
  {
    seq(|subs|, i requires 0 <= i < |subs| => if i in to then Put(subs[i], m) else subs[i])
  }

  /** Sending on a closed channel panics. */
  ghost predicate SendPanics(subs: seq<Sub>, to: set<nat>) {
    exists i :: i in to && i < |subs| && !subs[i].closed && subs[i].shut
  }

  ghost function Deliver(t: Tail, m: Message): Tail {
    var to := Members(t.listed);
    t.(subs := Fan(t.subs, to, m), panicked := t.panicked || SendPanics(t.subs, to))
  }

  ghost function Members(listed: seq<nat>): set<nat> {
    set i | i in listed
  }

  // ---------------------------------------------------------------- what each critical section does

  function NewSub(): Sub {
    Sub([], None, None, false, false)
  }

  ghost function Attached(t: Tail): Tail {
    t.(subs := t.subs + [NewSub()], listed := t.listed + [|t.subs|], running := true)
  }

  /** Without `id` in the list nothing is closed, so no channel is closed twice. */
  ghost function Unsubscribed(t: Tail, id: nat): Tail {
    var t' :=
      if id in t.listed && id < |t.subs| then
        t.(listed := Without(t.listed, id), subs := t.subs[id := t.subs[id].(closed := true, shut := true)],
           panicked := t.panicked || t.subs[id].shut)
      else t;
    t'.(running := t.running && t'.listed != [])
  }

  function Without(listed: seq<nat>, id: nat): seq<nat> {
    if listed == [] then [] else if listed[0] == id then listed[1..] else [listed[0]] + Without(listed[1..], id)
  }

  ghost function WithStatus(t: Tail, status: Status): Tail {
    var st := status.(level := t.level);
    if t.status == st then t else Deliver(t.(status := st), Mail(st))
  }

  ghost function WithBackfill(t: Tail, lines: seq<string>): Tail {
    if t.loaded then t
    else
      var t' := t.(pushed := t.pushed + lines, loaded := true);
      if lines == [] then t' else Deliver(t', Batch(lines))
  }

  ghost function WithLine(t: Tail, line: string): Tail {
    Deliver(t.(pushed := t.pushed + [line]), Line(line))
  }

  predicate Distinct(listed: seq<nat>) {
    forall i, j :: 0 <= i < j < |listed| ==> listed[i] != listed[j]
  }

  lemma {:induction false} WithoutAt(listed: seq<nat>, k: nat)
    requires k < |listed| && Distinct(listed)
    ensures Without(listed, listed[k]) == listed[..k] + listed[k + 1..]
  {
    if k == 0 {
    } else {
      assert listed[1..][k - 1] == listed[k];
      WithoutAt(listed[1..], k - 1);
      assert listed[..k] == [listed[0]] + listed[1..][..k - 1];
    }
  }

  lemma {:induction false} WithoutIs(listed: seq<nat>, k: nat)
    requires k < |listed| && Distinct(listed)
    ensures Without(listed, listed[k]) == listed[..k] + listed[k + 1..]
    ensures Distinct(Without(listed, listed[k]))
    ensures forall x :: x in Without(listed, listed[k]) <==> x in listed && x != listed[k]
  {
    hide Without;
    WithoutAt(listed, k);
    var rest := listed[..k] + listed[k + 1..];
    forall x | x in listed && x != listed[k] ensures x in rest {
      var j :| 0 <= j < |listed| && listed[j] == x;
      assert rest[if j < k then j else j - 1] == x;
    }
  }

  // ---------------------------------------------------------------- the Tailer object

  class Tailer {
    const ring: RingBuffer
    const level: string
    var subs: seq<Sub>
    var subscribers: seq<nat>
    var running: bool
    var status: Status
    var initialLoaded: bool
    var panicked: bool

    ghost predicate Valid()
      reads this, ring, ring.data
    {
      && ring.Valid() && ring.data.Length == RING_LINES
      && Distinct(subscribers) && forall k :: 0 <= k < |subscribers| ==> subscribers[k] < |subs|
    }

    ghost function View(): Tail
      reads this, ring
    {
      Tail(ring.history, subs, subscribers, running, level, status, initialLoaded, panicked)
    }

    constructor (level: string)
      ensures Valid() && View() == Start(level) && fresh(ring) && fresh(ring.data)
    {
      this.ring := new RingBuffer(RING_LINES);
      this.level := level;
      subs, subscribers, running := [], [], false;
      status := Status("opening", None, "", level);
      initialLoaded, panicked := false, false;
    }

    /** The record, the ring and the status are taken under one lock. */
    method Attach() returns (id: nat, snapshot: seq<string>, st: Status)
      requires Valid()
      modifies this
      ensures Valid() && View() == Attached(old(View()))
      ensures id == |old(subs)| && snapshot == LastN(old(View()).pushed, RING_LINES) && st == old(status)
    {
      id := |subs|;
      subs := subs + [NewSub()];
      subscribers := subscribers + [id];
      snapshot := ring.Copy();
      st := status;
      if !running {
        running := true;
      }
    }

    method Unsubscribe(id: nat)
      requires Valid()
      modifies this
      ensures Valid() && View() == Unsubscribed(old(View()), id)
    {
      hide LastN, Unwound, Without, Distinct;
      var i := 0;
      while i < |subscribers|
        invariant i <= |subscribers|
        invariant id !in subscribers[..i] && View() == old(View()) && Valid()
      {
        if subscribers[i] == id {
          WithoutIs(subscribers, i);
          subscribers := subscribers[..i] + subscribers[i + 1..];
          Close(id);
          break;
        }
        i := i + 1;
      }
      if |subscribers| == 0 && running {
        running := false;
      }
    }

    /** Marks a record closed before closing its channels; closing them twice would panic. */
    method Close(id: nat)
      requires id < |subs|
      modifies this`subs, this`panicked
      ensures subs == old(subs)[id := old(subs)[id].(closed := true, shut := true)]
      ensures panicked == (old(panicked) || old(subs)[id].shut)
    {
      panicked := panicked || subs[id].shut;
      subs := subs[id := subs[id].(closed := true, shut := true)];
    }

    method PublishStatus(st0: Status)
      requires Valid()
      modifies this
      ensures Valid() && View() == WithStatus(old(View()), st0)
    {
      var st := st0.(level := level);
      if status == st {
        return;
      }
      status := st;
      SendAll(Mail(st));
    }

    method PublishInitialBackfill(lines: seq<string>)
      requires Valid()
      modifies this, ring, ring.data
      ensures Valid() && View() == WithBackfill(old(View()), lines)
    {
      if initialLoaded {
        return;
      }
      PushAll(lines);
      initialLoaded := true;
      if |lines| == 0 {
        return;
      }
      SendAll(Batch(lines));
    }

    method PushAll(lines: seq<string>)
      requires Valid()
      modifies ring, ring.data
      ensures Valid() && ring.history == old(ring.history) + lines
    {
      hide LastN, Unwound, Distinct;
      assert ring.history + lines[..0] == ring.history;
      for k := 0 to |lines|
        invariant Valid() && ring.history == old(ring.history) + lines[..k]
      {
        ring.Push(lines[k]);
        assert old(ring.history) + lines[..k] + [lines[k]] == old(ring.history) + lines[..k + 1];
      }
      assert lines[..|lines|] == lines;
    }

    method Broadcast(line: string)
      requires Valid()
      modifies this, ring, ring.data
      ensures Valid() && View() == WithLine(old(View()), line)
    {
      ring.Push(line);
      SendAll(Line(line));
    }

    /** The loop over the subscriber list. */
    method SendAll(m: Message)
      requires Valid()
      modifies this`subs, this`panicked
      ensures Valid() && View() == Deliver(old(View()), m)
    {
      hide Put, LastN, Unwound, Fan, SendPanics;
      FanNone(subs, m);
      assert Members(subscribers[..0]) == {};
      for k := 0 to |subscribers|
        invariant subs == Fan(old(subs), Members(subscribers[..k]), m)
        invariant panicked == (old(panicked) || SendPanics(old(subs), Members(subscribers[..k])))
      {
        var i := subscribers[k];
        assert i !in subscribers[..k] by {
          assert Distinct(subscribers);
        }
        assert Members(subscribers[..k + 1]) == Members(subscribers[..k]) + {i};
        FanOne(old(subs), Members(subscribers[..k]), i, m);
        if !subs[i].closed && subs[i].shut {
          panicked := true;
        }
        subs := subs[i := Put(subs[i], m)];
      }
      assert subscribers[..|subscribers|] == subscribers;
    }
  }

  lemma {:induction false} FanNone(subs: seq<Sub>, m: Message)
    ensures Fan(subs, {}, m) == subs && !SendPanics(subs, {})
  {
  }

  /** Offering to one more record. */
  lemma {:induction false} FanOne(subs: seq<Sub>, done: set<nat>, i: nat, m: Message)
    requires i < |subs| && i !in done
    ensures Fan(subs, done, m)[i] == subs[i]
    ensures Fan(subs, done + {i}, m) == Fan(subs, done, m)[i := Put(subs[i], m)]
    ensures SendPanics(subs, done + {i}) <==> SendPanics(subs, done) || (!subs[i].closed && subs[i].shut)
  {
    hide Put;
    var now := Fan(subs, done + {i}, m);
    assert forall k :: 0 <= k < |subs| && k != i ==> now[k] == Fan(subs, done, m)[k];
    if SendPanics(subs, done) {
      var k :| k in done && k < |subs| && !subs[k].closed && subs[k].shut;
      assert k in done + {i};
    }
    if !subs[i].closed && subs[i].shut {
      assert i in done + {i};
    }
  }

  function Start(level: string): Tail {
    Tail([], [], [], false, level, Status("opening", None, "", level), false, false)
  }

  // ---------------------------------------------------------------- viewers

  /** `Holding`: a live line was received; `drained` once the history mailbox was tried. */
  datatype Phase = Idle | Holding(line: string, drained: bool) | Gone

  /** What the event loop writes to the connection. */
  datatype Out = LogEvent(line: string) | StatusEvent(status: Status) | PingEvent

  function LogEvents(lines: seq<string>): seq<Out> {
    seq(|lines|, i requires 0 <= i < |lines| => LogEvent(lines[i]))
  }

  /** One viewer: where its loop stands and what it has written. The rest is bookkeeping of the model:
      `wire` are the lines and `seen` the latest status among the written events, the viewer attached
      after `from` pushes, unsubscribed after `until`, and `dropped` are the pushes its full channel
      refused. */
  datatype Client = Client(
    phase: Phase, out: seq<Out>, wire: seq<string>, seen: Status, from: nat, until: Option<nat>, dropped: set<nat>)

  /** The loop begins with the status and the snapshot that Attach returned. */
  function NewClient(pushed: seq<string>, status: Status): Client {
    var snapshot := LastN(pushed, RING_LINES);
    Client(Idle, [StatusEvent(status)] + LogEvents(snapshot), snapshot, status, |pushed|, None, {})
  }

  datatype Sys = Sys(t: Tail, clients: seq<Client>)

  datatype Step =
    | Attach
    | Unsubscribe(id: nat)
    | PublishStatus(status: Status)
    | PublishBackfill(lines: seq<string>)
    | Broadcast(line: string)
    | TakeLine(id: nat)
    | TryBatch(id: nat)
    | WriteLine(id: nat)
    | TakeBatch(id: nat)
    | TakeStatus(id: nat)
    | Ping(id: nat)
    | Leave(id: nat)

  ghost predicate CanTake(s: Sys, step: Step) {
    match step
    case Attach | Unsubscribe(_) | PublishStatus(_) | PublishBackfill(_) => true
    // run() opens the file, loading history the first time, before it reads live lines
    case Broadcast(_) => s.t.loaded
    case _ => step.id < |s.clients| == |s.t.subs| && CanMove(s.t.subs[step.id], s.clients[step.id], step)
  }

  ghost function Next(s: Sys, step: Step): Sys
    requires CanTake(s, step)
  {
    match step
    case Attach =>
      Sys(Attached(s.t), s.clients + [NewClient(s.t.pushed, s.t.status)])
    case Unsubscribe(i) =>
      Sys(Unsubscribed(s.t, i),
          if i in s.t.listed && i < |s.clients| then s.clients[i := s.clients[i].(until := Some(|s.t.pushed|))]
          else s.clients)
    case PublishStatus(st) => s.(t := WithStatus(s.t, st))
    case PublishBackfill(lines) => s.(t := WithBackfill(s.t, lines))
    case Broadcast(line) => Sys(WithLine(s.t, line), NoteDrops(s))
    case _ =>
      var m := Moved(s.t.subs[step.id], s.clients[step.id], step);
      Sys(s.t.(subs := s.t.subs[step.id := m.0]), s.clients[step.id := m.1])
  }

  predicate ViewerStep(step: Step) {
    step.TakeLine? || step.TryBatch? || step.WriteLine? || step.TakeBatch? || step.TakeStatus? || step.Ping?
    || step.Leave?
  }

  /** The viewer's loop: a receive from a closed and empty channel ends it, and a live line is written
      only after the history mailbox was tried. */
  predicate CanMove(sub: Sub, c: Client, step: Step) {
    match step
    case TakeLine(_) => c.phase == Idle && (sub.lines != [] || sub.shut)
    case TakeBatch(_) => c.phase == Idle && (sub.batch.Some? || sub.shut)
    case TakeStatus(_) => c.phase == Idle && (sub.mail.Some? || sub.shut)
    case TryBatch(_) => c.phase.Holding? && !c.phase.drained
    case WriteLine(_) => c.phase.Holding? && c.phase.drained
    case Ping(_) | Leave(_) => c.phase == Idle
    case _ => false
  }

  function Wrote(c: Client, lines: seq<string>): Client {
    c.(out := c.out + LogEvents(lines), wire := c.wire + lines)
  }

  function Moved(sub: Sub, c: Client, step: Step): (Sub, Client)
    requires CanMove(sub, c, step)
  {
    match step
    case TakeLine(_) =>
      if sub.lines == [] then (sub, c.(phase := Gone))
      else (sub.(lines := sub.lines[1..]), c.(phase := Holding(sub.lines[0], false)))
    case TryBatch(_) =>
      if sub.batch.Some? then
        (sub.(batch := None), Wrote(c, sub.batch.value).(phase := c.phase.(drained := true)))
      else (sub, c.(phase := if sub.shut then Gone else c.phase.(drained := true)))
    case WriteLine(_) => (sub, Wrote(c, [c.phase.line]).(phase := Idle))
    case TakeBatch(_) =>
      if sub.batch.None? then (sub, c.(phase := Gone))
      else (sub.(batch := None), Wrote(c, sub.batch.value))
    case TakeStatus(_) =>
      if sub.mail.None? then (sub, c.(phase := Gone))
      else (sub.(mail := None), c.(out := c.out + [StatusEvent(sub.mail.value)], seen := sub.mail.value))
    case Ping(_) => (sub, c.(out := c.out + [PingEvent]))
    case Leave(_) => (sub, c.(phase := Gone))
  }

  /** A push is marked as dropped for exactly the listed subscribers whose line channel it left as it was. */
  ghost function NoteDrops(s: Sys): (r: seq<Client>)
    ensures |r| == |s.clients|
  {
    seq(|s.clients|, i requires 0 <= i < |s.clients| =>
      if i in s.t.listed && i < |s.t.subs| && |s.t.subs[i].lines| >= CHANNEL_SLOTS
      then s.clients[i].(dropped := s.clients[i].dropped + {|s.t.pushed|}) else s.clients[i])
  }

  ghost predicate Runs(s: Sys, steps: seq<Step>)
    decreases |steps|
  {
    steps == [] || (CanTake(s, steps[0]) && Runs(Next(s, steps[0]), steps[1..]))
  }

  ghost function Exec(s: Sys, steps: seq<Step>): Sys
    requires Runs(s, steps)
    decreases |steps|
  {
    if steps == [] then s else Exec(Next(s, steps[0]), steps[1..])
  }

  // ---------------------------------------------------------------- what a viewer is owed

  /** The pushes `from`, ..., `stop - 1` that were not dropped. */
  ghost function Kept(pushed: seq<string>, from: nat, stop: nat, dropped: set<nat>): seq<string>
    requires from <= stop <= |pushed|
    decreases stop
  {
    if from == stop then []
    else Kept(pushed, from, stop - 1, dropped) + (if stop - 1 in dropped then [] else [pushed[stop - 1]])
  }

  function End(t: Tail, c: Client): nat {
    if c.until.Some? then c.until.value else |t.pushed|
  }

  /** The snapshot, then every later push that was not dropped. */
  ghost function Expected(t: Tail, c: Client): seq<string>
    requires c.from <= End(t, c) <= |t.pushed|
  {
    LastN(t.pushed[..c.from], RING_LINES) + Kept(t.pushed, c.from, End(t, c), c.dropped)
  }

  /** What is on its way: history first, then the line in hand, then the queue. */
  function Pending(sub: Sub, c: Client): seq<string> {
    (if sub.batch.Some? then sub.batch.value else []) + (if c.phase.Holding? then [c.phase.line] else []) + sub.lines
  }

  ghost predicate ViewerInv(t: Tail, sub: Sub, c: Client) {
    && c.from <= End(t, c) <= |t.pushed| && (forall n :: n in c.dropped ==> n < |t.pushed|)
    && |sub.lines| <= CHANNEL_SLOTS
    && sub.closed == sub.shut == c.until.Some?
    && (sub.lines != [] || c.phase.Holding? || sub.batch.Some? ==> t.loaded)
    && (c.phase.Holding? && c.phase.drained ==> sub.batch.None?)
    && c.wire <= Expected(t, c)
    && (c.phase != Gone ==> c.wire + Pending(sub, c) == Expected(t, c))
    && (!sub.closed ==> t.status == if sub.mail.Some? then sub.mail.value else c.seen)
  }

  ghost predicate ListInv(t: Tail) {
    && Distinct(t.listed) && (forall i :: i in t.listed ==> i < |t.subs|)
    && (forall i :: 0 <= i < |t.subs| ==> (i in t.listed <==> !t.subs[i].closed) && t.subs[i].closed == t.subs[i].shut)
    && !t.panicked && (t.running <==> t.listed != [])
  }

  ghost predicate Inv(s: Sys) {
    && ListInv(s.t) && |s.clients| == |s.t.subs|
    && forall i :: 0 <= i < |s.clients| ==> ViewerInv(s.t, s.t.subs[i], s.clients[i])
  }

  // ---------------------------------------------------------------- proofs

  lemma {:induction false} KeptIgnoresLater(
    pushed: seq<string>, more: seq<string>, from: nat, stop: nat, dropped: set<nat>, d': set<nat>)
    requires from <= stop <= |pushed| && forall n :: n < |pushed| ==> (n in dropped <==> n in d')
    ensures Kept(pushed + more, from, stop, d') == Kept(pushed, from, stop, dropped)
    decreases stop
  {
    if from < stop {
      KeptIgnoresLater(pushed, more, from, stop - 1, dropped, d');
    }
  }

  lemma {:induction false} KeptWhole(pushed: seq<string>, from: nat, mid: nat, stop: nat, dropped: set<nat>)
    requires from <= mid <= stop <= |pushed| && forall n :: mid <= n < stop ==> n !in dropped
    ensures Kept(pushed, from, stop, dropped) == Kept(pushed, from, mid, dropped) + pushed[mid..stop]
    decreases stop
  {
    if mid < stop {
      KeptWhole(pushed, from, mid, stop - 1, dropped);
      assert pushed[mid..stop] == pushed[mid..stop - 1] + [pushed[stop - 1]];
    }
  }

  /** Pushing `more` lets a current viewer expect exactly the pushes its channel took. */
  lemma {:induction false} ExpectedGrows(t: Tail, t': Tail, c: Client, c': Client, more: seq<string>)
    requires c.from <= End(t, c) <= |t.pushed| && (forall n :: n in c.dropped ==> n < |t.pushed|)
    requires t'.pushed == t.pushed + more && c' == c.(dropped := c'.dropped)
    requires c'.dropped == c.dropped || (|more| == 1 && c.until.None? && c'.dropped == c.dropped + {|t.pushed|})
    ensures Expected(t', c') == Expected(t, c) + if c.until.Some? || c'.dropped != c.dropped then [] else more
  {
    hide LastN;
    assert t'.pushed[..c.from] == t.pushed[..c.from];
    KeptIgnoresLater(t.pushed, more, c.from, End(t, c), c.dropped, c'.dropped);
    if c.until.None? {
      if c'.dropped == c.dropped {
        KeptWhole(t'.pushed, c.from, |t.pushed|, |t'.pushed|, c.dropped);
        assert t'.pushed[|t.pushed|..|t'.pushed|] == more;
      } else {
        assert |t.pushed| in c'.dropped && |t.pushed| !in c.dropped;
      }
    }
  }

  lemma {:induction false} PrefixGrows(w: seq<string>, p: seq<string>, e: seq<string>, more: seq<string>)
    requires w <= e
    ensures w <= e + more && (w + p == e ==> w + (p + more) == e + more)
  {
  }

  lemma {:induction false} ViewerLine(t: Tail, t': Tail, sub: Sub, c: Client, line: string, c': Client)
    requires ViewerInv(t, sub, c) && t.loaded && t'.loaded && t'.pushed == t.pushed + [line] && t'.status == t.status
    requires c' == if !sub.closed && |sub.lines| >= CHANNEL_SLOTS then c.(dropped := c.dropped + {|t.pushed|}) else c
    ensures ViewerInv(t', Put(sub, Line(line)), c')
  {
    hide Expected;
    ExpectedGrows(t, t', c, c', [line]);
    PrefixGrows(c.wire, Pending(sub, c), Expected(t, c), [line]);
    assert !sub.closed && |sub.lines| >= CHANNEL_SLOTS ==> |t.pushed| !in c.dropped;
    var sub' := Put(sub, Line(line));
    assert sub' != sub ==> Pending(sub', c') == Pending(sub, c) + [line];
  }

  lemma {:induction false} ViewerBatch(t: Tail, t': Tail, sub: Sub, c: Client, lines: seq<string>)
    requires ViewerInv(t, sub, c) && !t.loaded && t'.loaded && t'.pushed == t.pushed + lines && t'.status == t.status
    ensures ViewerInv(t', Put(sub, Batch(lines)), c)
    ensures lines == [] ==> ViewerInv(t', sub, c)
  {
    hide Expected;
    ExpectedGrows(t, t', c, c, lines);
    PrefixGrows(c.wire, Pending(sub, c), Expected(t, c), lines);
    if !sub.closed {
      assert Pending(Put(sub, Batch(lines)), c) == lines;
    }
  }

  lemma {:induction false} ViewerMail(t: Tail, t': Tail, sub: Sub, c: Client, st: Status)
    requires ViewerInv(t, sub, c) && t' == t.(status := st, subs := t'.subs, panicked := t'.panicked)
    ensures ViewerInv(t', Put(sub, Mail(st)), c)
  {
    assert Expected(t', c) == Expected(t, c);
  }

  lemma {:induction false} ViewerSame(t: Tail, t': Tail, sub: Sub, c: Client)
    requires ViewerInv(t, sub, c) && t'.pushed == t.pushed && t'.loaded == t.loaded && t'.status == t.status
    ensures ViewerInv(t', sub, c)
  {
    assert Expected(t', c) == Expected(t, c);
  }

  /** No listed subscriber has closed channels, so a fan-out keeps the list and does not panic. */
  lemma {:induction false} DeliverKeepsList(t: Tail, m: Message)
    requires ListInv(t)
    ensures ListInv(Deliver(t, m))
  {
  }

  lemma {:induction false} BroadcastKeeps(s: Sys, line: string)
    requires Inv(s) && s.t.loaded
    ensures Inv(Next(s, Step.Broadcast(line)))
  {
    hide ViewerInv, Put;
    var t := s.t.(pushed := s.t.pushed + [line]);
    assert ListInv(t);
    DeliverKeepsList(t, Line(line));
    var s' := Next(s, Step.Broadcast(line));
    forall i | 0 <= i < |s.clients| ensures ViewerInv(s'.t, s'.t.subs[i], s'.clients[i]) {
      PutToListed(s.t, i, Line(line));
      ViewerLine(s.t, s'.t, s.t.subs[i], s.clients[i], line, s'.clients[i]);
    }
  }

  /** Being listed and being open is the same, so the fan-out applies Put to every record. */
  lemma {:induction false} PutToListed(t: Tail, i: nat, m: Message)
    requires ListInv(t) && i < |t.subs|
    ensures Deliver(t, m).subs[i] == Put(t.subs[i], m) && (i in t.listed <==> !t.subs[i].closed)
  {
  }

  lemma {:induction false} BackfillKeeps(s: Sys, lines: seq<string>)
    requires Inv(s)
    ensures Inv(Next(s, PublishBackfill(lines)))
  {
    hide ViewerInv, Put;
    if !s.t.loaded {
      var t := s.t.(pushed := s.t.pushed + lines, loaded := true);
      assert ListInv(t);
      DeliverKeepsList(t, Batch(lines));
      var s' := Next(s, PublishBackfill(lines));
      forall i | 0 <= i < |s.clients| ensures ViewerInv(s'.t, s'.t.subs[i], s'.clients[i]) {
        PutToListed(t, i, Batch(lines));
        ViewerBatch(s.t, s'.t, s.t.subs[i], s.clients[i], lines);
      }
    }
  }

  lemma {:induction false} StatusKeeps(s: Sys, status: Status)
    requires Inv(s)
    ensures Inv(Next(s, Step.PublishStatus(status)))
  {
    hide ViewerInv, Put;
    var st := status.(level := s.t.level);
    if s.t.status != st {
      var t := s.t.(status := st);
      assert ListInv(t);
      DeliverKeepsList(t, Mail(st));
      var s' := Next(s, Step.PublishStatus(status));
      forall i | 0 <= i < |s.clients| ensures ViewerInv(s'.t, s'.t.subs[i], s'.clients[i]) {
        PutToListed(t, i, Mail(st));
        ViewerMail(s.t, s'.t, s.t.subs[i], s.clients[i], st);
      }
    }
  }

  lemma {:induction false} AttachList(t: Tail)
    requires ListInv(t)
    ensures ListInv(Attached(t))
  {
    assert forall k :: 0 <= k < |t.listed| ==> t.listed[k] in t.listed;
  }

  lemma {:induction false} AttachKeeps(s: Sys)
    requires Inv(s)
    ensures Inv(Next(s, Step.Attach))
  {
    hide ViewerInv;
    AttachList(s.t);
    var s' := Next(s, Step.Attach);
    forall i | 0 <= i < |s'.clients| ensures ViewerInv(s'.t, s'.t.subs[i], s'.clients[i]) {
      if i < |s.clients| {
        ViewerSame(s.t, s'.t, s.t.subs[i], s.clients[i]);
      } else {
        NewViewer(s.t, s'.t);
      }
    }
  }

  lemma {:induction false} NewViewer(t: Tail, t': Tail)
    requires t'.pushed == t.pushed && t'.status == t.status
    ensures ViewerInv(t', NewSub(), NewClient(t.pushed, t.status))
  {
    assert t.pushed[..|t.pushed|] == t.pushed;
  }

  lemma {:induction false} UnsubscribeList(t: Tail, id: nat)
    requires ListInv(t)
    ensures ListInv(Unsubscribed(t, id))
  {
    hide Without, Distinct;
    if id in t.listed {
      var k :| 0 <= k < |t.listed| && t.listed[k] == id;
      WithoutIs(t.listed, k);
    }
  }

  lemma {:induction false} UnsubscribeKeeps(s: Sys, id: nat)
    requires Inv(s)
    ensures Inv(Next(s, Step.Unsubscribe(id)))
  {
    hide ListInv, Without;
    UnsubscribeList(s.t, id);
    var s' := Next(s, Step.Unsubscribe(id));
    forall i | 0 <= i < |s'.clients| ensures ViewerInv(s'.t, s'.t.subs[i], s'.clients[i]) {
      ListedIsOpen(s.t);
      if i == id && id in s.t.listed {
        ViewerCloses(s.t, s'.t, s.t.subs[i], s.clients[i]);
      } else {
        ViewerSame(s.t, s'.t, s.t.subs[i], s.clients[i]);
      }
    }
  }

  lemma {:induction false} ListedIsOpen(t: Tail)
    requires ListInv(t)
    ensures forall i :: i in t.listed ==> i < |t.subs| && !t.subs[i].closed
  {
  }

  lemma {:induction false} ViewerCloses(t: Tail, t': Tail, sub: Sub, c: Client)
    requires ViewerInv(t, sub, c) && !sub.closed && t'.pushed == t.pushed && t'.loaded == t.loaded
    ensures ViewerInv(t', sub.(closed := true, shut := true), c.(until := Some(|t.pushed|)))
  {
    var c' := c.(until := Some(|t.pushed|));
    assert Expected(t', c') == Expected(t, c);
  }

  /** A viewer's own step moves text from what is pending to the wire, in order. */
  lemma {:induction false} MovedKeepsText(sub: Sub, c: Client, step: Step)
    requires CanMove(sub, c, step) && (c.phase.Holding? && c.phase.drained ==> sub.batch.None?)
    ensures
      var (sub', c') := Moved(sub, c, step);
      && (c'.phase != Gone ==> c'.wire + Pending(sub', c') == c.wire + Pending(sub, c))
      && (c'.phase == Gone ==> c'.wire == c.wire)
  {
    hide LogEvents;
    var batch := if sub.batch.Some? then sub.batch.value else [];
    var hand := if c.phase.Holding? then [c.phase.line] else [];
    if step.TakeLine? && sub.lines != [] {
      TakesFirst(c.wire, batch, sub.lines);
    } else {
      MovesBatch(c.wire, batch, hand, sub.lines);
      MovesBatch(c.wire, hand, [], sub.lines);
    }
  }

  lemma {:induction false} TakesFirst(w: seq<string>, b: seq<string>, l: seq<string>)
    requires l != []
    ensures w + (b + [l[0]] + l[1..]) == w + (b + [] + l)
  {
    assert [l[0]] + l[1..] == l;
  }

  lemma {:induction false} MovesBatch(w: seq<string>, b: seq<string>, h: seq<string>, l: seq<string>)
    ensures w + (b + h + l) == (w + b) + ([] + h + l)
    ensures w + ([] + b + l) == (w + b) + ([] + [] + l)
  {
  }

  lemma {:induction false} MovedKeeps(t: Tail, sub: Sub, c: Client, step: Step)
    requires CanMove(sub, c, step) && ViewerInv(t, sub, c)
    ensures ViewerInv(t, Moved(sub, c, step).0, Moved(sub, c, step).1)
  {
    hide Kept, LastN, Pending;
    MovedKeepsText(sub, c, step);
    assert Expected(t, Moved(sub, c, step).1) == Expected(t, c);
  }

  lemma {:induction false} ViewerStepKeeps(s: Sys, step: Step)
    requires Inv(s) && ViewerStep(step) && CanTake(s, step)
    ensures Inv(Next(s, step))
  {
    hide ViewerInv;
    MovedKeeps(s.t, s.t.subs[step.id], s.clients[step.id], step);
    var s' := Next(s, step);
    assert ListInv(s'.t);
    forall i | 0 <= i < |s'.clients| ensures ViewerInv(s'.t, s'.t.subs[i], s'.clients[i]) {
      ViewerSame(s.t, s'.t, s'.t.subs[i], s'.clients[i]);
    }
  }

  lemma {:induction false} StepKeeps(s: Sys, step: Step)
    requires Inv(s) && CanTake(s, step)
    ensures Inv(Next(s, step))
  {
    hide Inv, Next;
    match step
    case Attach => AttachKeeps(s);
    case Unsubscribe(i) => UnsubscribeKeeps(s, i);
    case PublishStatus(st) => StatusKeeps(s, st);
    case PublishBackfill(lines) => BackfillKeeps(s, lines);
    case Broadcast(line) => BroadcastKeeps(s, line);
    case _ => ViewerStepKeeps(s, step);
  }

  /** Main result: over every interleaving, nothing panics, and every viewer's wire, mailboxes and queue
      together are its snapshot and the pushes since, in order, minus those dropped. */
  lemma {:induction false} EveryRunKeepsInv(s: Sys, steps: seq<Step>)
    requires Inv(s) && Runs(s, steps)
    ensures Inv(Exec(s, steps))
    decreases |steps|
  {
    hide Inv, Next;
    if steps == [] {
    } else {
      StepKeeps(s, steps[0]);
      EveryRunKeepsInv(Next(s, steps[0]), steps[1..]);
    }
  }

  lemma {:induction false} ViewersSeePushOrder(level: string, steps: seq<Step>, i: nat)
    requires Runs(Sys(Start(level), []), steps) && i < |Exec(Sys(Start(level), []), steps).clients|
    ensures
      var s := Exec(Sys(Start(level), []), steps);
      var c := s.clients[i];
      && !s.t.panicked && i < |s.t.subs| && c.from <= End(s.t, c) <= |s.t.pushed|
      && c.wire <= Expected(s.t, c)
      && (c.phase != Gone ==> c.wire + Pending(s.t.subs[i], c) == Expected(s.t, c))
      && (i in s.t.listed ==> s.t.status == if s.t.subs[i].mail.Some? then s.t.subs[i].mail.value else c.seen)
      && (c.dropped == {} ==>
            Expected(s.t, c) == s.t.pushed[if c.from > RING_LINES then c.from - RING_LINES else 0..End(s.t, c)])
  {
    hide Exec, Runs, Inv, Expected;
    var s0 := Sys(Start(level), []);
    StartIsFine(level);
    EveryRunKeepsInv(s0, steps);
    var s := Exec(s0, steps);
    InvOfViewer(s, i);
    if s.clients[i].dropped == {} {
      NothingDropped(s.t, s.clients[i]);
    }
  }

  lemma {:induction false} StartIsFine(level: string)
    ensures Inv(Sys(Start(level), []))
  {
  }

  lemma {:induction false} InvOfViewer(s: Sys, i: nat)
    requires Inv(s) && i < |s.clients|
    ensures !s.t.panicked && i < |s.t.subs| && (i in s.t.listed ==> !s.t.subs[i].closed)
    ensures ViewerInv(s.t, s.t.subs[i], s.clients[i])
  {
    hide ViewerInv;
  }

  lemma {:induction false} NothingDropped(t: Tail, c: Client)
    requires c.from <= End(t, c) <= |t.pushed| && c.dropped == {}
    ensures Expected(t, c) == t.pushed[if c.from > RING_LINES then c.from - RING_LINES else 0..End(t, c)]
  {
    hide Kept;
    KeptWhole(t.pushed, c.from, c.from, End(t, c), c.dropped);
    KeptNothing(t.pushed, c.from);
  }

  lemma {:induction false} KeptNothing(pushed: seq<string>, from: nat)
    requires from <= |pushed|
    ensures Kept(pushed, from, from, {}) == []
  {
  }

  /** The history batch reaches every current viewer whole, and no later publication sends another. */
  lemma {:induction false} BatchOnceNeverDropped(s: Sys, lines: seq<string>, i: nat)
    requires Inv(s) && i in s.t.listed
    ensures
      var s' := Next(s, PublishBackfill(lines));
      && s'.t.loaded && i < |s.t.subs| == |s'.t.subs|
      && (!s.t.loaded && lines != [] ==> s.t.subs[i].batch.None? && s'.t.subs[i].batch == Some(lines))
      && (s.t.loaded ==> s' == s)
  {
    if !s.t.loaded {
      assert ViewerInv(s.t, s.t.subs[i], s.clients[i]);
      PutToListed(s.t.(pushed := s.t.pushed + lines, loaded := true), i, Batch(lines));
    }
  }

  // ---------------------------------------------------------------- drops over a run

  /** Step `k` of the run broadcasts push `n` while 16 lines wait for listed viewer `i`. */
  ghost predicate RefusedAt(s0: Sys, steps: seq<Step>, k: nat, i: nat, n: nat) {
    && k < |steps| && steps[k].Broadcast? && Runs(s0, steps[..k])
    && var s := Exec(s0, steps[..k]);
    && i in s.t.listed && i < |s.t.subs| && |s.t.pushed| == n && |s.t.subs[i].lines| == CHANNEL_SLOTS
  }

  lemma {:induction false} RunsLast(s: Sys, steps: seq<Step>)
    requires steps != [] && Runs(s, steps)
    ensures
      var front := steps[..|steps| - 1];
      && Runs(s, front) && CanTake(Exec(s, front), steps[|steps| - 1])
      && Exec(s, steps) == Next(Exec(s, front), steps[|steps| - 1])
    decreases |steps|
  {
    hide CanTake, Next;
    var front, last := steps[..|steps| - 1], steps[|steps| - 1];
    if |steps| == 1 {
      assert front == [] && steps[1..] == [];
    } else {
      RunsLast(Next(s, steps[0]), steps[1..]);
      assert steps[1..][..|steps| - 2] == front[1..];
      assert front[0] == steps[0];
    }
  }

  /** A viewer's drops change in a broadcast that finds its channel full, and in no other step. */
  lemma {:induction false} DropStep(s: Sys, step: Step, i: nat)
    requires Inv(s) && CanTake(s, step) && i < |Next(s, step).clients|
    ensures
      var was := if i < |s.clients| then s.clients[i].dropped else {};
      var full := step.Broadcast? && i in s.t.listed && i < |s.t.subs| && |s.t.subs[i].lines| == CHANNEL_SLOTS;
      Next(s, step).clients[i].dropped == if full then was + {|s.t.pushed|} else was
  {
    if i < |s.clients| {
      assert ViewerInv(s.t, s.t.subs[i], s.clients[i]);
    }
  }

  /** Over a whole run: a push is missing for a viewer if and only if it was broadcast while the viewer
      was listed and 16 earlier lines were still waiting for it. */
  lemma {:induction false} DropsExactlyWhenFull(s0: Sys, steps: seq<Step>, i: nat, n: nat)
    requires Inv(s0) && s0.clients == [] && Runs(s0, steps) && i < |Exec(s0, steps).clients|
    ensures n in Exec(s0, steps).clients[i].dropped <==> exists k :: RefusedAt(s0, steps, k, i, n)
    decreases |steps|
  {
    hide Inv, Next, CanTake, Exec, Runs;
    if steps == [] {
      ExecNothing(s0);
    } else {
      var m := |steps| - 1;
      var front := steps[..m];
      RunsLast(s0, steps);
      EveryRunKeepsInv(s0, front);
      var s := Exec(s0, front);
      DropStep(s, steps[m], i);
      RefusedEarlier(s0, steps, i, n);
      if i < |s.clients| {
        DropsExactlyWhenFull(s0, front, i, n);
      } else {
        NotYetAttached(s0, front, i, n);
      }
    }
  }

  lemma {:induction false} ExecNothing(s: Sys)
    ensures Runs(s, []) && Exec(s, []) == s
  {
  }

  lemma {:induction false} ExecFirst(s: Sys, steps: seq<Step>)
    requires steps != [] && Runs(s, steps)
    ensures CanTake(s, steps[0]) && Runs(Next(s, steps[0]), steps[1..])
    ensures Exec(s, steps) == Exec(Next(s, steps[0]), steps[1..])
  {
  }

  /** A refusal in a run is one in its front part or in its last step. */
  lemma {:induction false} RefusedEarlier(s0: Sys, steps: seq<Step>, i: nat, n: nat)
    requires steps != []
    ensures
      var m := |steps| - 1;
      (exists k :: RefusedAt(s0, steps, k, i, n)) <==>
      (exists k :: RefusedAt(s0, steps[..m], k, i, n)) || RefusedAt(s0, steps, m, i, n)
  {
    hide Exec, Runs;
    var m := |steps| - 1;
    forall k: nat | k < m ensures RefusedAt(s0, steps, k, i, n) == RefusedAt(s0, steps[..m], k, i, n) {
      assert steps[..m][..k] == steps[..k];
    }
    if k: nat :| RefusedAt(s0, steps[..m], k, i, n) {
      assert RefusedAt(s0, steps, k, i, n);
    }
    if k: nat :| k < m && RefusedAt(s0, steps, k, i, n) {
      assert RefusedAt(s0, steps[..m], k, i, n);
    }
  }

  /** Nothing is refused to a viewer that is not there yet. */
  lemma {:induction false} NotYetAttached(s0: Sys, steps: seq<Step>, i: nat, n: nat)
    requires Inv(s0) && Runs(s0, steps) && i >= |Exec(s0, steps).clients|
    ensures forall k :: !RefusedAt(s0, steps, k, i, n)
  {
    hide Next, CanTake, Exec, Runs, Inv;
    forall k | 0 <= k < |steps| && Runs(s0, steps[..k]) ensures !RefusedAt(s0, steps, k, i, n) {
      ViewersOnlyGrow(s0, steps, k);
      EveryRunKeepsInv(s0, steps[..k]);
      AsManySubs(Exec(s0, steps[..k]));
    }
  }

  lemma {:induction false} AsManySubs(s: Sys)
    requires Inv(s)
    ensures |s.clients| == |s.t.subs|
  {
  }

  lemma {:induction false} ViewersOnlyGrow(s0: Sys, steps: seq<Step>, k: nat)
    requires k <= |steps| && Runs(s0, steps) && Inv(s0)
    ensures Runs(s0, steps[..k]) && |Exec(s0, steps[..k]).clients| <= |Exec(s0, steps).clients|
    decreases |steps|
  {
    hide Next, CanTake, Exec, Runs, Inv;
    if k == |steps| {
      assert steps[..k] == steps;
    } else {
      var front := steps[..|steps| - 1];
      RunsLast(s0, steps);
      ViewersOnlyGrow(s0, front, k);
      assert front[..k] == steps[..k];
      OneStepGrows(Exec(s0, front), steps[|steps| - 1]);
    }
  }

  lemma {:induction false} OneStepGrows(s: Sys, step: Step)
    requires CanTake(s, step)
    ensures |Next(s, step).clients| >= |s.clients|
  {
  }

  // ---------------------------------------------------------------- what is written

  function LogLines(out: seq<Out>): seq<string> {
    if out == [] then []
    else
      var last := out[|out| - 1];
      LogLines(out[..|out| - 1]) + if last.LogEvent? then [last.line] else []
  }

  function LastStatus(out: seq<Out>): Option<Status> {
    if out == [] then None
    else if out[|out| - 1].StatusEvent? then Some(out[|out| - 1].status)
    else LastStatus(out[..|out| - 1])
  }

  /** `wire` and `seen` are what the written events say. */
  ghost predicate Written(c: Client) {
    LogLines(c.out) == c.wire && LastStatus(c.out) == Some(c.seen)
  }

  lemma {:induction false} LogLinesMore(out: seq<Out>, lines: seq<string>)
    ensures LogLines(out + LogEvents(lines)) == LogLines(out) + lines
    ensures LastStatus(out + LogEvents(lines)) == LastStatus(out)
    decreases |lines|
  {
    if lines == [] {
      assert out + LogEvents(lines) == out;
    } else {
      var n := |lines| - 1;
      var all := out + LogEvents(lines);
      LogLinesMore(out, lines[..n]);
      assert all[..|all| - 1] == out + LogEvents(lines[..n]);
      assert all[|all| - 1] == LogEvent(lines[n]);
      assert lines == lines[..n] + [lines[n]];
    }
  }

  lemma {:induction false} LogLinesOther(out: seq<Out>, o: Out)
    requires !o.LogEvent?
    ensures LogLines(out + [o]) == LogLines(out)
    ensures LastStatus(out + [o]) == if o.StatusEvent? then Some(o.status) else LastStatus(out)
  {
    assert (out + [o])[..|out|] == out;
  }

  lemma {:induction false} MovedWrites(sub: Sub, c: Client, step: Step)
    requires Written(c) && CanMove(sub, c, step)
    ensures Written(Moved(sub, c, step).1)
  {
    hide LogLines, LastStatus, LogEvents;
    if step.TakeStatus? && sub.mail.Some? {
      LogLinesOther(c.out, StatusEvent(sub.mail.value));
    } else if step.Ping? {
      LogLinesOther(c.out, PingEvent);
    } else if step.WriteLine? {
      LogLinesMore(c.out, [c.phase.line]);
    } else if (step.TryBatch? || step.TakeBatch?) && sub.batch.Some? {
      LogLinesMore(c.out, sub.batch.value);
    }
  }

  lemma {:induction false} NewClientWrites(pushed: seq<string>, status: Status)
    ensures Written(NewClient(pushed, status))
  {
    hide LogLines, LastStatus, LogEvents, LastN;
    LogLinesOther([], StatusEvent(status));
    assert [] + [StatusEvent(status)] == [StatusEvent(status)];
    LogLinesMore([StatusEvent(status)], LastN(pushed, RING_LINES));
    NothingWritten();
  }

  lemma {:induction false} NothingWritten()
    ensures LogLines([]) == []
  {
  }

  ghost predicate AllWritten(s: Sys) {
    forall i :: 0 <= i < |s.clients| ==> Written(s.clients[i])
  }

  lemma {:induction false} StepWrites(s: Sys, step: Step)
    requires AllWritten(s) && CanTake(s, step)
    ensures AllWritten(Next(s, step))
  {
    hide LogLines, LastStatus, NewClient, Moved;
    if step.Attach? {
      NewClientWrites(s.t.pushed, s.t.status);
    } else if ViewerStep(step) {
      MovedWrites(s.t.subs[step.id], s.clients[step.id], step);
    }
  }

  lemma {:induction false} EveryRunWrites(s: Sys, steps: seq<Step>)
    requires AllWritten(s) && Runs(s, steps)
    ensures AllWritten(Exec(s, steps))
    decreases |steps|
  {
    hide Next, CanTake, AllWritten;
    if steps == [] {
    } else {
      StepWrites(s, steps[0]);
      EveryRunWrites(Next(s, steps[0]), steps[1..]);
    }
  }

  // ---------------------------------------------------------------- the status of a run

  /** The last status a run published. */
  function LastPublished(steps: seq<Step>): Option<Status> {
    if steps == [] then None
    else
      var last := steps[|steps| - 1];
      if last.PublishStatus? then Some(last.status) else LastPublished(steps[..|steps| - 1])
  }

  /** Over every run the tailer's status is the last one published, or the opening one, under the tailer's level. */
  lemma {:induction false} StatusIsLastPublished(level: string, steps: seq<Step>)
    requires Runs(Sys(Start(level), []), steps)
    ensures
      var t := Exec(Sys(Start(level), []), steps).t;
      && t.level == level
      && t.status == match LastPublished(steps)
                     case None => Status("opening", None, "", level)
                     case Some(st) => Status(st.state, st.sizeBytes, st.modifiedAt, level)
    decreases |steps|
  {
    var s0 := Sys(Start(level), []);
    if steps == [] {
      ExecNothing(s0);
    } else {
      hide Next, CanTake, Exec, Runs;
      var front := steps[..|steps| - 1];
      RunsLast(s0, steps);
      StatusIsLastPublished(level, front);
      StatusStep(Exec(s0, front), steps[|steps| - 1]);
    }
  }

  lemma {:induction false} StatusStep(s: Sys, step: Step)
    requires CanTake(s, step)
    ensures Next(s, step).t.level == s.t.level
    ensures Next(s, step).t.status == if step.PublishStatus? then step.status.(level := s.t.level) else s.t.status
  {
  }

  // ---------------------------------------------------------------- a viewer catches up

  /** The next step of a viewer that has something to write. */
  function NextWrite(sub: Sub, c: Client, i: nat): Option<Step> {
    if c.phase.Holding? then Some(if c.phase.drained then WriteLine(i) else TryBatch(i))
    else if c.phase == Gone then None
    else if sub.batch.Some? then Some(TakeBatch(i))
    else if sub.lines != [] then Some(TakeLine(i))
    else if sub.mail.Some? then Some(TakeStatus(i))
    else None
  }

  function StepsLeft(sub: Sub, c: Client): nat {
    3 * |sub.lines| + (if sub.batch.Some? then 1 else 0) + (if sub.mail.Some? then 1 else 0)
      + (if c.phase.Holding? then if c.phase.drained then 1 else 2 else 0)
  }

  lemma {:induction false} WriteStep(s: Sys, i: nat)
    requires Inv(s) && i in s.t.listed && i < |s.clients| && s.clients[i].phase != Gone
    requires NextWrite(s.t.subs[i], s.clients[i], i).Some?
    ensures
      var step := NextWrite(s.t.subs[i], s.clients[i], i).value;
      && CanTake(s, step) && ViewerStep(step)
      && var s' := Next(s, step);
      && s'.t == s.t.(subs := s'.t.subs) && |s'.clients| == |s.clients| && s'.clients[i].phase != Gone
      && i < |s'.t.subs| && StepsLeft(s'.t.subs[i], s'.clients[i]) < StepsLeft(s.t.subs[i], s.clients[i])
      && Expected(s'.t, s'.clients[i]) == Expected(s.t, s.clients[i])
  {
    hide Expected, ViewerInv, LogEvents;
    InvOfViewer(s, i);
    ListedIsOpen(s.t);
    var step := NextWrite(s.t.subs[i], s.clients[i], i).value;
    WithinPushed(s.t, s.t.subs[i], s.clients[i]);
    SameExpected(s, i, Next(s, step));
  }

  lemma {:induction false} WithinPushed(t: Tail, sub: Sub, c: Client)
    requires ViewerInv(t, sub, c)
    ensures c.from <= End(t, c) <= |t.pushed| && sub.closed == sub.shut
  {
  }

  lemma {:induction false} SameExpected(s: Sys, i: nat, s': Sys)
    requires i < |s.clients| == |s'.clients| && s'.t.pushed == s.t.pushed
    requires s.clients[i].from <= End(s.t, s.clients[i]) <= |s.t.pushed|
    requires
      var c, c' := s.clients[i], s'.clients[i];
      c'.from == c.from && c'.until == c.until && c'.dropped == c.dropped
    ensures Expected(s'.t, s'.clients[i]) == Expected(s.t, s.clients[i])
  {
  }

  /** A subscribed viewer that still listens can catch up by itself: steps of its own loop alone put everything it is
      owed on the wire and show it the current status. */
  lemma {:induction false} ViewerCatchesUp(s: Sys, i: nat) returns (steps: seq<Step>)
    requires Inv(s) && i in s.t.listed && i < |s.clients| && s.clients[i].phase != Gone
    ensures Runs(s, steps) && forall k :: 0 <= k < |steps| ==> ViewerStep(steps[k]) && steps[k].id == i
    ensures
      var s' := Exec(s, steps);
      && |s'.clients| == |s.clients| && s'.t == s.t.(subs := s'.t.subs)
      && s'.clients[i].wire == Expected(s.t, s.clients[i]) && s'.clients[i].seen == s.t.status
    decreases StepsLeft(s.t.subs[i], s.clients[i])
  {
    hide Next, CanTake, Exec, Runs, Expected, Inv;
    InvOfViewer(s, i);
    match NextWrite(s.t.subs[i], s.clients[i], i)
    case None =>
      steps := [];
      ExecNothing(s);
    case Some(step) =>
      WriteStep(s, i);
      StepKeeps(s, step);
      var later := ViewerCatchesUp(Next(s, step), i);
      steps := [step] + later;
      assert steps[1..] == later;
      ExecOne(s, steps);
  }

  lemma {:induction false} ExecOne(s: Sys, steps: seq<Step>)
    requires steps != [] && CanTake(s, steps[0]) && Runs(Next(s, steps[0]), steps[1..])
    ensures Runs(s, steps) && Exec(s, steps) == Exec(Next(s, steps[0]), steps[1..])
  {
  }
}
