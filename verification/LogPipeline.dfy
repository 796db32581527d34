/** The whole way of a log line as one system: the file grows, the tailer opens it, reads it in ticks and
    hands on what it read (LogTail), line by line, to viewers that come and go (TailFanout), whose events a
    browser parses (SseFrames). The tailer stops with the last viewer and starts again with the next. */
module LogPipeline {
  import opened Options
  import GoStrings
  import Sequences
  import LogTail
  import TailFanout
  import SseFrames

  /** `Open` is the tailer's open of the file after it was started, `Act` its next publication, `Stop` its
      end after the last viewer left; `Other` is a step of a viewer or of the source status. */
  datatype Step = Grow(bytes: string) | Open | Tick(n: nat) | Act | Stop | Other(step: TailFanout.Step)

  /** One life of the tailer: it reads on from byte `at` in chunks `ticks`. The first one is `initial`: it
      loads history up to `at`; every later one begins at the end of the file as it then was. */
  datatype Session = Session(initial: bool, at: nat, ticks: seq<string>)

  /** `carry` is the unfinished line of the current session and `due` its publications not yet made. */
  datatype Pipe = Pipe(
    fan: TailFanout.Sys, file: string, past: seq<Session>, starting: bool, cur: Option<Session>, carry: string,
    due: seq<TailFanout.Step>)

  function FirstLoad(file: string): LogTail.History {
    LogTail.Backfill(file, LogTail.RING_LINES, LogTail.BACKFILL_BYTES, LogTail.MAX_LINE_BYTES)
  }

  /** The first byte a session has not read. */
  function EndOf(s: Session): nat {
    s.at + |LogTail.Flat(s.ticks)|
  }

  function Broadcasts(lines: seq<string>): seq<TailFanout.Step> {
    seq(|lines|, i requires 0 <= i < |lines| => TailFanout.Broadcast(lines[i]))
  }

  /** Attach starts a tailer when none is wanted yet; that an old one could still be ending then is ruled
      out in `CanStep`. */
  predicate Starts(p: Pipe, s: TailFanout.Step) {
    s.Attach? && !p.fan.t.running
  }

  ghost predicate CanStep(p: Pipe, step: Step) {
    match step
    case Grow(_) => true
    case Open => p.starting
    case Tick(n) => p.cur.Some? && p.due == [] && EndOf(p.cur.value) + n <= |p.file|
    case Act => p.due != [] && TailFanout.CanTake(p.fan, p.due[0])
    case Stop => (p.starting || p.cur.Some?) && p.due == [] && !p.fan.t.running
    case Other(s) =>
      && !s.PublishBackfill? && !s.Broadcast? && TailFanout.CanTake(p.fan, s)
      && (Starts(p, s) ==> !p.starting && p.cur.None?)
  }

  ghost function Next(p: Pipe, step: Step): Pipe
    requires CanStep(p, step)
  {
    match step
    case Grow(bytes) => p.(file := p.file + bytes)
    case Open =>
      var s := Session(!p.fan.t.loaded, |p.file|, []);
      var h := FirstLoad(p.file);
      if s.initial then
        p.(starting := false, cur := Some(s), carry := h.partial, due := [TailFanout.PublishBackfill(h.lines)])
      else p.(starting := false, cur := Some(s), carry := "")
    case Tick(n) =>
      var s := p.cur.value;
      var chunk := p.file[EndOf(s)..EndOf(s) + n];
      var read := LogTail.TickRead(chunk, p.carry, LogTail.MAX_LINE_BYTES);
      p.(cur := Some(s.(ticks := s.ticks + [chunk])), carry := read.carry, due := Broadcasts(read.emitted))
    case Act => p.(fan := TailFanout.Next(p.fan, p.due[0]), due := p.due[1..])
    case Stop =>
      p.(past := p.past + (if p.cur.Some? then [p.cur.value] else []), starting := false, cur := None, carry := "")
    case Other(s) => p.(fan := TailFanout.Next(p.fan, s), starting := p.starting || Starts(p, s))
  }

  ghost predicate Run(p: Pipe, steps: seq<Step>, p': Pipe)
    decreases |steps|
  {
    if steps == [] then p == p' else CanStep(p, steps[0]) && Run(Next(p, steps[0]), steps[1..], p')
  }

  function Init(level: string): Pipe {
    Pipe(TailFanout.Sys(TailFanout.Start(level), []), "", [], false, None, "", [])
  }

  // ---------------------------------------------------------------- what every run keeps

  /** The lines of publications still to be made. */
  function DueLines(due: seq<TailFanout.Step>): seq<string> {
    if due == [] then [] else PushedBy(due[0]) + DueLines(due[1..])
  }

  function PushedBy(step: TailFanout.Step): seq<string> {
    match step
    case PublishBackfill(lines) => lines
    case Broadcast(line) => [line]
    case _ => []
  }

  function Front(file: string, n: nat): string {
    if n <= |file| then file[..n] else file
  }

  function Begin(file: string, s: Session): LogTail.History {
    if s.initial then FirstLoad(Front(file, s.at)) else LogTail.History([], "", s.at)
  }

  /** Everything one session has to push. */
  function Output(file: string, s: Session): seq<string> {
    var h := Begin(file, s);
    h.lines + LogTail.Replay(s.ticks, h.partial, LogTail.MAX_LINE_BYTES).emitted
  }

  /** The chunks of a session are the bytes of the file from `at` on. */
  ghost predicate Sound(file: string, s: Session) {
    EndOf(s) <= |file| && file[s.at..EndOf(s)] == LogTail.Flat(s.ticks)
  }

  ghost predicate AllSound(file: string, ss: seq<Session>) {
    forall k :: 0 <= k < |ss| ==> Sound(file, ss[k])
  }

  function Outputs(file: string, ss: seq<Session>): seq<string> {
    if ss == [] then [] else Outputs(file, ss[..|ss| - 1]) + Output(file, ss[|ss| - 1])
  }

  /** All sessions so far, the current one last. */
  function Sessions(p: Pipe): seq<Session> {
    p.past + if p.cur.Some? then [p.cur.value] else []
  }

  ghost predicate OnlyBroadcasts(due: seq<TailFanout.Step>) {
    forall k :: 0 <= k < |due| ==> due[k].Broadcast?
  }

  /** Only the first session is initial, and each begins where the last one ended or later. */
  ghost predicate InOrder(ss: seq<Session>) {
    forall k :: 0 <= k < |ss| ==> (ss[k].initial <==> k == 0) && (k > 0 ==> EndOf(ss[k - 1]) <= ss[k].at)
  }

  /** History goes out first and once, then the lines of one tick after the other. */
  ghost predicate DueInOrder(p: Pipe) {
    if p.fan.t.loaded then OnlyBroadcasts(p.due)
    else
      && p.past == [] && p.fan.t.pushed == []
      && if p.cur.None? then p.due == []
         else p.cur.value.ticks == [] && p.due == [TailFanout.PublishBackfill(Begin(p.file, p.cur.value).lines)]
  }

  ghost predicate Fed(p: Pipe) {
    && AllSound(p.file, Sessions(p)) && InOrder(Sessions(p)) && DueInOrder(p)
    && (p.fan.t.loaded ==> Sessions(p) != []) && (p.starting ==> p.cur.None?)
    && (p.cur.None? ==> p.due == []) && |Outputs(p.file, p.past)| <= |p.fan.t.pushed|
    && (p.cur.Some? ==>
          var h := Begin(p.file, p.cur.value);
          p.carry == LogTail.Replay(p.cur.value.ticks, h.partial, LogTail.MAX_LINE_BYTES).carry)
    && p.fan.t.pushed + DueLines(p.due) == Outputs(p.file, Sessions(p))
  }

  /** The viewers of the moment came after all pushes of past sessions. */
  ghost predicate ViewersAreCurrent(p: Pipe) {
    forall i :: 0 <= i < |p.fan.clients| && i in p.fan.t.listed ==>
      |Outputs(p.file, p.past)| <= p.fan.clients[i].from
  }

  ghost predicate Inv(p: Pipe) {
    Fed(p) && ViewersAreCurrent(p) && TailFanout.Inv(p.fan) && TailFanout.AllWritten(p.fan)
  }

  lemma {:induction false} StepPushes(s: TailFanout.Sys, step: TailFanout.Step)
    requires TailFanout.CanTake(s, step) && (step.PublishBackfill? ==> !s.t.loaded)
    ensures
      var s' := TailFanout.Next(s, step);
      && s'.t.pushed == s.t.pushed + PushedBy(step)
      && s'.t.loaded == (s.t.loaded || step.PublishBackfill?)
  {
  }

  lemma {:induction false} DueLinesOfBroadcasts(lines: seq<string>)
    ensures DueLines(Broadcasts(lines)) == lines && OnlyBroadcasts(Broadcasts(lines))
  {
    if lines == [] {
    } else {
      DueLinesOfBroadcasts(lines[1..]);
      assert Broadcasts(lines)[1..] == Broadcasts(lines[1..]);
    }
  }

  lemma {:induction false} FlatSnoc(ticks: seq<string>, chunk: string)
    ensures LogTail.Flat(ticks + [chunk]) == LogTail.Flat(ticks) + chunk
  {
    if ticks == [] {
      LogTail.FlatOne(chunk);
      assert [] + [chunk] == [chunk];
    } else {
      FlatSnoc(ticks[1..], chunk);
      assert (ticks + [chunk])[1..] == ticks[1..] + [chunk];
    }
  }

  lemma {:induction false} ReplaySnoc(ticks: seq<string>, chunk: string, carry: string, cap: nat)
    ensures
      var before := LogTail.Replay(ticks, carry, cap);
      var read := LogTail.TickRead(chunk, before.carry, cap);
      LogTail.Replay(ticks + [chunk], carry, cap) == LogTail.Read(before.emitted + read.emitted, read.carry)
    decreases |ticks|
  {
    hide LogTail.TickRead;
    if ticks == [] {
      assert ([] + [chunk])[1..] == [];
    } else {
      ReplaySnoc(ticks[1..], chunk, LogTail.TickRead(ticks[0], carry, cap).carry, cap);
      assert (ticks + [chunk])[1..] == ticks[1..] + [chunk];
    }
  }

  lemma {:induction false} OutputsSnoc(file: string, ss: seq<Session>, s: Session)
    requires AllSound(file, ss + [s])
    ensures AllSound(file, ss) && Sound(file, s)
    ensures Outputs(file, ss + [s]) == Outputs(file, ss) + Output(file, s)
  {
    assert (ss + [s])[..|ss|] == ss && (ss + [s])[|ss|] == s;
    forall k | 0 <= k < |ss| ensures Sound(file, ss[k]) {
      assert (ss + [s])[k] == ss[k];
    }
  }

  /** Growth changes nothing that was read. */
  lemma {:induction false} GrowthKeepsOutputs(file: string, bytes: string, ss: seq<Session>)
    requires AllSound(file, ss)
    ensures AllSound(file + bytes, ss) && Outputs(file + bytes, ss) == Outputs(file, ss)
  {
    hide LogTail.Backfill, LogTail.Replay, LogTail.Flat, FirstLoad;
    forall k | 0 <= k < |ss|
      ensures Sound(file + bytes, ss[k]) && Front(file + bytes, ss[k].at) == Front(file, ss[k].at)
    {
      assert Sound(file, ss[k]);
      assert (file + bytes)[ss[k].at..EndOf(ss[k])] == file[ss[k].at..EndOf(ss[k])];
    }
    if ss == [] {
    } else {
      GrowthKeepsOutputs(file, bytes, ss[..|ss| - 1]);
    }
  }

  lemma {:induction false} NothingDue()
    ensures DueLines([]) == []
  {
  }

  lemma {:induction false} GrowKeeps(p: Pipe, bytes: string)
    requires Inv(p)
    ensures Inv(Next(p, Grow(bytes)))
  {
    hide LogTail.Backfill, LogTail.Replay, LogTail.Flat, DueLines, OnlyBroadcasts, Outputs, Output, FirstLoad, InOrder;
    hide TailFanout.Inv, TailFanout.AllWritten, Sound;
    GrowthKeepsOutputs(p.file, bytes, Sessions(p));
    PastIsSound(p);
    GrowthKeepsOutputs(p.file, bytes, p.past);
    if p.cur.Some? {
      assert Sessions(p)[|p.past|] == p.cur.value;
      SoundStarts(p.file, p.cur.value);
      assert Front(p.file + bytes, p.cur.value.at) == Front(p.file, p.cur.value.at);
    }
  }

  lemma {:induction false} PastIsSound(p: Pipe)
    requires AllSound(p.file, Sessions(p))
    ensures AllSound(p.file, p.past)
  {
    forall k | 0 <= k < |p.past| ensures Sound(p.file, p.past[k]) {
      assert Sessions(p)[k] == p.past[k];
    }
  }

  lemma {:induction false} SoundStarts(file: string, s: Session)
    requires Sound(file, s)
    ensures s.at <= EndOf(s) <= |file|
  {
  }

  lemma {:induction false} OpenKeeps(p: Pipe)
    requires Inv(p) && CanStep(p, Open)
    ensures Inv(Next(p, Open))
  {
    hide LogTail.Backfill, TailFanout.Inv, TailFanout.AllWritten, Outputs, OnlyBroadcasts;
    var p' := Next(p, Open);
    var s := p'.cur.value;
    assert p.past + [] == p.past;
    assert Sessions(p') == p.past + [s];
    NewSession(p.file, p.past, s);
    OutputsSnoc(p.file, p.past, s);
    assert Front(p.file, |p.file|) == p.file;
    NothingDue();
    assert DueLines(p'.due) == Output(p.file, s) by {
      assert p'.due != [] ==> DueLines(p'.due[1..]) == [];
    }
    assert p.fan.t.pushed + [] == p.fan.t.pushed;
  }

  lemma {:induction false} NewSession(file: string, ss: seq<Session>, s: Session)
    requires AllSound(file, ss) && InOrder(ss) && s == Session(ss == [], |file|, [])
    ensures AllSound(file, ss + [s]) && InOrder(ss + [s])
  {
    hide LogTail.Flat;
    assert LogTail.Flat([]) == "" by {
      FlatNothing();
    }
    forall k | 0 <= k < |ss + [s]|
      ensures Sound(file, (ss + [s])[k])
      ensures k > 0 ==> EndOf((ss + [s])[k - 1]) <= (ss + [s])[k].at
    {
      if k < |ss| {
        assert (ss + [s])[k] == ss[k];
      }
      if k == |ss| && k > 0 {
        assert Sound(file, ss[k - 1]);
      }
    }
  }

  lemma {:induction false} FlatNothing()
    ensures LogTail.Flat([]) == ""
  {
  }

  lemma {:induction false} TickKeeps(p: Pipe, n: nat)
    requires Inv(p) && CanStep(p, Tick(n))
    ensures Inv(Next(p, Tick(n)))
  {
    hide LogTail.Backfill, LogTail.Replay, LogTail.TickRead, LogTail.Flat, Broadcasts, OnlyBroadcasts, DueLines;
    hide TailFanout.Inv, TailFanout.AllWritten, Outputs, InOrder, Sound, FirstLoad;
    var s := p.cur.value;
    var chunk := p.file[EndOf(s)..EndOf(s) + n];
    var p' := Next(p, Tick(n));
    var s' := p'.cur.value;
    NothingDue();
    PastIsSound(p);
    OutputsSnoc(p.file, p.past, s);
    TickIsSound(p.file, p.past, s, chunk);
    OutputsSnoc(p.file, p.past, s');
    var h := Begin(p.file, s);
    ReplaySnoc(s.ticks, chunk, h.partial, LogTail.MAX_LINE_BYTES);
    var emitted := LogTail.TickRead(chunk, p.carry, LogTail.MAX_LINE_BYTES).emitted;
    DueLinesOfBroadcasts(emitted);
    assert p.fan.t.pushed + [] == p.fan.t.pushed;
    var before := LogTail.Replay(s.ticks, h.partial, LogTail.MAX_LINE_BYTES).emitted;
    Regroup(Outputs(p.file, p.past), h.lines, before, emitted);
  }

  lemma {:induction false} Regroup(a: seq<string>, b: seq<string>, c: seq<string>, d: seq<string>)
    ensures a + (b + (c + d)) == a + (b + c) + d
  {
  }

  lemma {:induction false} TickIsSound(file: string, past: seq<Session>, s: Session, chunk: string)
    requires AllSound(file, past + [s]) && InOrder(past + [s])
    requires EndOf(s) + |chunk| <= |file| && chunk == file[EndOf(s)..EndOf(s) + |chunk|]
    ensures
      var s' := s.(ticks := s.ticks + [chunk]);
      AllSound(file, past + [s']) && InOrder(past + [s']) && s'.at <= |file|
  {
    hide LogTail.Flat;
    FlatSnoc(s.ticks, chunk);
    var s' := s.(ticks := s.ticks + [chunk]);
    assert (past + [s])[|past|] == s;
    assert file[s.at..EndOf(s')] == file[s.at..EndOf(s)] + chunk;
    forall k | 0 <= k < |past + [s']|
      ensures Sound(file, (past + [s'])[k])
      ensures (past + [s'])[k].initial <==> k == 0
      ensures k > 0 ==> EndOf((past + [s'])[k - 1]) <= (past + [s'])[k].at
    {
      assert Sound(file, (past + [s])[k]);
      assert k > 0 ==> (past + [s])[k - 1] == (past + [s'])[k - 1];
    }
  }

  lemma {:induction false} ActKeeps(p: Pipe)
    requires Inv(p) && CanStep(p, Act)
    ensures Inv(Next(p, Act))
  {
    hide LogTail.Backfill, LogTail.Replay, LogTail.Flat, TailFanout.Next, TailFanout.CanTake, Outputs, InOrder;
    hide TailFanout.Inv, TailFanout.AllWritten, Sound;
    StepPushes(p.fan, p.due[0]);
    PublishKeepsViewers(p.fan, p.due[0]);
    TailFanout.StepKeeps(p.fan, p.due[0]);
    TailFanout.StepWrites(p.fan, p.due[0]);
    var pushed := p.fan.t.pushed;
    assert pushed + (PushedBy(p.due[0]) + DueLines(p.due[1..])) == pushed + PushedBy(p.due[0]) + DueLines(p.due[1..]);
    assert !p.fan.t.loaded ==> p.due[1..] == [];
  }

  lemma {:induction false} PublishKeepsViewers(s: TailFanout.Sys, step: TailFanout.Step)
    requires TailFanout.CanTake(s, step) && (step.PublishBackfill? || step.Broadcast?)
    ensures
      var s' := TailFanout.Next(s, step);
      && s'.t.listed == s.t.listed && |s'.clients| == |s.clients| && s'.t.running == s.t.running
      && forall i :: 0 <= i < |s.clients| ==> s'.clients[i].from == s.clients[i].from
  {
  }

  /** Other steps list nobody but a new viewer, who begins with what was pushed so far. */
  lemma {:induction false} OtherKeepsViewers(s: TailFanout.Sys, step: TailFanout.Step)
    requires TailFanout.CanTake(s, step) && !step.PublishBackfill? && !step.Broadcast? && TailFanout.Inv(s)
    ensures
      var s' := TailFanout.Next(s, step);
      forall i :: 0 <= i < |s'.clients| && i in s'.t.listed ==>
        if i < |s.clients| then i in s.t.listed && s'.clients[i].from == s.clients[i].from
        else s'.clients[i].from == |s.t.pushed|
  {
    if step.Unsubscribe? {
      LeavingKeepsViewers(s, step.id);
    } else if step.Attach? {
    } else if step.PublishStatus? {
    } else {
      MovingKeepsViewers(s, step);
    }
  }

  lemma {:induction false} LeavingKeepsViewers(s: TailFanout.Sys, id: nat)
    requires TailFanout.Inv(s)
    ensures
      var s' := TailFanout.Next(s, TailFanout.Unsubscribe(id));
      && |s'.clients| == |s.clients| && (forall i :: i in s'.t.listed ==> i in s.t.listed)
      && forall i :: 0 <= i < |s.clients| ==> s'.clients[i].from == s.clients[i].from
  {
    hide TailFanout.Without, TailFanout.ViewerInv, TailFanout.Distinct;
    if id in s.t.listed {
      var k :| 0 <= k < |s.t.listed| && s.t.listed[k] == id;
      TailFanout.WithoutIs(s.t.listed, k);
    }
  }

  lemma {:induction false} MovingKeepsViewers(s: TailFanout.Sys, step: TailFanout.Step)
    requires TailFanout.CanTake(s, step) && TailFanout.ViewerStep(step)
    ensures
      var s' := TailFanout.Next(s, step);
      && |s'.clients| == |s.clients| && s'.t.listed == s.t.listed
      && forall i :: 0 <= i < |s.clients| ==> s'.clients[i].from == s.clients[i].from
  {
  }

  lemma {:induction false} OtherKeeps(p: Pipe, s: TailFanout.Step)
    requires Inv(p) && CanStep(p, Other(s))
    ensures Inv(Next(p, Other(s)))
  {
    hide LogTail.Backfill, LogTail.Replay, LogTail.Flat, TailFanout.Next, TailFanout.CanTake, DueLines, InOrder, Sound;
    hide TailFanout.Inv, TailFanout.AllWritten, Outputs;
    StepPushes(p.fan, s);
    OtherKeepsViewers(p.fan, s);
    TailFanout.StepKeeps(p.fan, s);
    TailFanout.StepWrites(p.fan, s);
    assert p.fan.t.pushed + [] == p.fan.t.pushed;
    PastIsSound(p);
  }

  lemma {:induction false} StopKeeps(p: Pipe)
    requires Inv(p) && CanStep(p, Stop)
    ensures Inv(Next(p, Stop))
  {
    hide LogTail.Backfill, LogTail.Replay, LogTail.Flat, TailFanout.AllWritten, Outputs, InOrder, Sound;
    var p' := Next(p, Stop);
    NothingDue();
    assert p.fan.t.pushed + [] == p.fan.t.pushed;
    assert p'.past == Sessions(p) && Sessions(p') == p'.past;
    NobodyListed(p.fan);
  }

  lemma {:induction false} NobodyListed(s: TailFanout.Sys)
    requires TailFanout.Inv(s) && !s.t.running
    ensures s.t.listed == []
  {
  }

  lemma {:induction false} StepKeeps(p: Pipe, step: Step)
    requires Inv(p) && CanStep(p, step)
    ensures Inv(Next(p, step))
  {
    hide Inv, Next, CanStep;
    match step
    case Grow(bytes) => GrowKeeps(p, bytes);
    case Open => OpenKeeps(p);
    case Tick(n) => TickKeeps(p, n);
    case Act => ActKeeps(p);
    case Stop => StopKeeps(p);
    case Other(s) => OtherKeeps(p, s);
  }

  lemma {:induction false} InitKeeps(level: string)
    ensures Inv(Init(level))
  {
    TailFanout.StartIsFine(level);
  }

  /** Main invariant: what was pushed and what is due are together what the sessions read, one after the
      other, and the viewers of the moment came after all past sessions. */
  lemma {:induction false} EveryRunKeepsInv(p: Pipe, steps: seq<Step>, p': Pipe)
    requires Inv(p) && Run(p, steps, p')
    ensures Inv(p')
    decreases |steps|
  {
    hide Inv, Next, CanStep;
    if steps == [] {
    } else {
      StepKeeps(p, steps[0]);
      EveryRunKeepsInv(Next(p, steps[0]), steps[1..], p');
    }
  }

  /** The tailer is never stuck with a publication it may not make. */
  lemma {:induction false} DueIsEnabled(level: string, steps: seq<Step>, p: Pipe)
    requires Run(Init(level), steps, p) && p.due != []
    ensures CanStep(p, Act)
  {
    hide Run, TailFanout.Inv, TailFanout.AllWritten, InOrder, Sound, Outputs;
    InitKeeps(level);
    EveryRunKeepsInv(Init(level), steps, p);
  }

  // ---------------------------------------------------------------- what sessions hand on and what they lose

  function Lines(bytes: string): seq<string> {
    LogTail.CleanAll(LogTail.Terminated(bytes), LogTail.MAX_LINE_BYTES)
  }

  lemma {:induction false} FitsPart(a: string, b: string, c: string, cap: nat)
    requires LogTail.FitsCap(a + b + c, cap)
    ensures LogTail.FitsCap(a + b, cap) && LogTail.FitsCap(b, cap)
  {
    hide LogTail.FitsCap;
    LogTail.FitsCapConcat(a + b, c, cap);
    FitsSuffix(a, b, cap);
  }

  lemma {:induction false} FitsSuffix(a: string, b: string, cap: nat)
    requires LogTail.FitsCap(a + b, cap)
    ensures LogTail.FitsCap(b, cap)
  {
    hide GoStrings.Split;
    LogTail.SplitConcat(a, b, '\n');
    var p, q := GoStrings.Split(a, '\n'), GoStrings.Split(b, '\n');
    var all := LogTail.Glue(p, q);
    assert all[|p| - 1] == p[|p| - 1] + q[0];
    forall i | 0 <= i < |q| ensures |q[i]| <= cap {
      if i > 0 {
        assert all[|p| - 1 + i] == q[i];
      }
    }
  }

  /** How many lines are loaded at a first open: at most 500, and only of those that start in the last 8 MiB. */
  function HistorySize(file: string): nat {
    var window := LogTail.Aligned(file, if |file| > 8_388_608 then |file| - 8_388_608 else 0);
    if |Lines(window)| > 500 then 500 else |Lines(window)|
  }

  /** A session hands on exactly lines of the bytes it read: the first one its history and the lines that ended since,
      which are the newest of all lines up to where it ends, a later one all lines that end in its own bytes. */
  lemma {:induction false} SessionIsItsLines(file: string, s: Session)
    requires Sound(file, s) && LogTail.FitsCap(file, LogTail.MAX_LINE_BYTES)
    ensures s.at <= EndOf(s) <= |file|
    ensures s.initial ==>
      var before, lines := file[..s.at], Lines(file[..EndOf(s)]);
      && |Lines(before)| <= |lines| && HistorySize(before) <= |Lines(before)|
      && Output(file, s) == Sequences.LastN(lines, HistorySize(before) + (|lines| - |Lines(before)|))
    ensures !s.initial ==> Output(file, s) == Lines(file[s.at..EndOf(s)])
  {
    hide LogTail.Backfill, LogTail.Replay, LogTail.Terminated, LogTail.CleanAll, LogTail.FitsCap, LogTail.Flat;
    hide Sequences.LastN;
    var a, b, c := file[..s.at], file[s.at..EndOf(s)], file[EndOf(s)..];
    assert file == a + b + c && file[..EndOf(s)] == a + b;
    FitsPart(a, b, c, LogTail.MAX_LINE_BYTES);
    hide Output, Lines, HistorySize;
    if s.initial {
      FirstSessionLines(file, s, a, b);
    } else {
      LaterSessionLines(file, s, b);
    }
  }

  lemma {:induction false} FirstSessionLines(file: string, s: Session, a: string, b: string)
    requires s.initial && Front(file, s.at) == a && LogTail.Flat(s.ticks) == b
    requires LogTail.FitsCap(a + b, LogTail.MAX_LINE_BYTES)
    ensures |Lines(a)| <= |Lines(a + b)| && HistorySize(a) <= |Lines(a)|
    ensures Output(file, s) == Sequences.LastN(Lines(a + b), HistorySize(a) + (|Lines(a + b)| - |Lines(a)|))
  {
    hide LogTail.Backfill, LogTail.Replay, LogTail.Terminated, LogTail.FitsCap, LogTail.Flat, LogTail.Aligned;
    hide LogTail.CleanAll, Sequences.LastN;
    LogTail.HistoryThenTailIsExact(a, s.ticks, 500, 8_388_608, LogTail.MAX_LINE_BYTES);
    var window := LogTail.Aligned(a, if |a| > 8_388_608 then |a| - 8_388_608 else 0);
    SizeOfLast(Lines(a), |Lines(window)|, 500);
    var h := FirstLoad(a);
    assert |h.lines| == HistorySize(a);
  }

  lemma {:induction false} SizeOfLast(s: seq<string>, w: nat, n: nat)
    requires w <= |s|
    ensures |Sequences.LastN(Sequences.LastN(s, w), n)| == if w > n then n else w
  {
  }

  lemma {:induction false} LaterSessionLines(file: string, s: Session, b: string)
    requires !s.initial && LogTail.Flat(s.ticks) == b && LogTail.FitsCap(b, LogTail.MAX_LINE_BYTES)
    ensures Output(file, s) == Lines(b)
  {
    hide LogTail.Replay, LogTail.Terminated, LogTail.CleanAll, LogTail.FitsCap, LogTail.Flat;
    assert "" + b == b;
    LogTail.ReplayIsExact(s.ticks, "", LogTail.MAX_LINE_BYTES);
    assert [] + Lines(b) == Lines(b);
  }

  /** What a restart costs: `a` was read before it, `gap` was written while no tailer ran, `b` is read
      after it. The lines that end in the gap are lost, and the first line after it loses what was written
      of it before. */
  lemma {:induction false} RestartLoses(a: string, gap: string, b: string)
    ensures
      var open := LogTail.Tail(a) + gap;
      Lines(a + gap + b) == Lines(a) + Lines(open) + Lines(LogTail.Tail(open) + b)
  {
    hide LogTail.Terminated, LogTail.CleanAll, LogTail.Tail;
    LogTail.TerminatedConcat(a, gap + b);
    assert a + gap + b == a + (gap + b);
    var open := LogTail.Tail(a) + gap;
    assert LogTail.Tail(a) + (gap + b) == open + b;
    LogTail.TerminatedConcat(open, b);
    LogTail.CleanAllConcat(LogTail.Terminated(a), LogTail.Terminated(open + b), LogTail.MAX_LINE_BYTES);
    LogTail.CleanAllConcat(
      LogTail.Terminated(open), LogTail.Terminated(LogTail.Tail(open) + b), LogTail.MAX_LINE_BYTES);
    assert Lines(a) + (Lines(open) + Lines(LogTail.Tail(open) + b))
        == Lines(a) + Lines(open) + Lines(LogTail.Tail(open) + b);
  }

  /** Nothing of the line that `b` goes on with, or only a carriage return right before its newline. */
  predicate IsNothing(open: string, b: string) {
    open == "" || (open == "\r" && b != "" && b[0] == '\n')
  }

  /** Exactly when it costs nothing: no line ended in the gap, and either no line has ended since or nothing
      of a line was written when the tailer stopped or in the gap. */
  lemma {:induction false} RestartLosesNothingExactly(a: string, gap: string, b: string)
    requires LogTail.FitsCap(a + gap + b, LogTail.MAX_LINE_BYTES)
    ensures Lines(a) + Lines(b) == Lines(a + gap + b) <==>
            '\n' !in gap && ('\n' !in b || IsNothing(LogTail.Tail(a) + gap, b))
  {
    hide LogTail.Terminated, LogTail.CleanAll, LogTail.Tail, LogTail.FitsCap;
    RestartLoses(a, gap, b);
    LogTail.TerminatedConcat(a, gap + b);
    var open := LogTail.Tail(a) + gap;
    NewlinesAreLines(gap);
    OpenHasGapLines(LogTail.Tail(a), gap);
    if '\n' !in gap {
      LogTail.TerminatedLine(open);
      LogTail.CleanAllNone(LogTail.MAX_LINE_BYTES);
      assert Lines(a) + [] + Lines(open + b) == Lines(a) + Lines(open + b);
      FitsAfterRestart(a, gap, b);
      RestOfLine(open, b);
      SameTail(Lines(a), Lines(b), Lines(open + b));
    } else {
      LogTail.TerminatedConcat(open, b);
      OpenHasGapLines(LogTail.Tail(open), b);
      assert |Lines(a) + Lines(b)| < |Lines(a + gap + b)|;
    }
  }

  /** The same for two sessions of one file: what the second hands on continues the lines of the file up to
      the end of the first, exactly on that condition. */
  lemma {:induction false} SessionsLoseNothingExactly(file: string, first: Session, second: Session)
    requires Sound(file, first) && Sound(file, second) && !second.initial && EndOf(first) <= second.at
    requires LogTail.FitsCap(file, LogTail.MAX_LINE_BYTES)
    ensures EndOf(first) <= second.at <= EndOf(second) <= |file|
    ensures
      var gap, b := file[EndOf(first)..second.at], file[second.at..EndOf(second)];
      Lines(file[..EndOf(first)]) + Output(file, second) == Lines(file[..EndOf(second)]) <==>
        '\n' !in gap && ('\n' !in b || IsNothing(LogTail.Tail(file[..EndOf(first)]) + gap, b))
  {
    hide Lines, Output, Sound, LogTail.FitsCap, LogTail.Flat, LogTail.Tail, IsNothing;
    SoundStarts(file, first);
    SoundStarts(file, second);
    SessionIsItsLines(file, second);
    var a, gap, b := file[..EndOf(first)], file[EndOf(first)..second.at], file[second.at..EndOf(second)];
    assert a + gap + b == file[..EndOf(second)];
    assert file == a + gap + b + file[EndOf(second)..];
    LogTail.FitsCapConcat(a + gap + b, file[EndOf(second)..], LogTail.MAX_LINE_BYTES);
    RestartLosesNothingExactly(a, gap, b);
  }

  lemma {:induction false} SameTail(a: seq<string>, b: seq<string>, c: seq<string>)
    ensures a + b == a + c <==> b == c
  {
    assert (a + b)[|a|..] == b && (a + c)[|a|..] == c;
  }

  lemma {:induction false} FitsAfterRestart(a: string, gap: string, b: string)
    requires LogTail.FitsCap(a + gap + b, LogTail.MAX_LINE_BYTES)
    ensures LogTail.FitsCap(LogTail.Tail(a) + gap + b, LogTail.MAX_LINE_BYTES)
  {
    assert a + gap + b == a + (gap + b);
    assert LogTail.Tail(a) + gap + b == LogTail.Tail(a) + (gap + b);
    LogTail.FitsCapConcat(a, gap + b, LogTail.MAX_LINE_BYTES);
  }

  lemma {:induction false} NewlinesAreLines(s: string)
    ensures |Lines(s)| > 0 <==> '\n' in s
  {
    hide LogTail.Terminated, LogTail.IndexByte;
    if '\n' in s {
      LogTail.FirstRecord(s);
    } else {
      LogTail.TerminatedLine(s);
    }
  }

  /** A front without a newline adds no line. */
  lemma {:induction false} OpenHasGapLines(front: string, s: string)
    requires '\n' !in front
    ensures |Lines(front + s)| == |Lines(s)|
  {
    hide GoStrings.Split;
    LogTail.SplitConcat(front, s, '\n');
    LogTail.SplitPieces(front, '\n');
  }

  /** Below the cap a line with something missing in front is another line. */
  lemma {:induction false} RestOfLine(front: string, b: string)
    requires '\n' !in front && LogTail.FitsCap(front + b, LogTail.MAX_LINE_BYTES)
    ensures Lines(b) == Lines(front + b) <==> '\n' !in b || IsNothing(front, b)
  {
    hide LogTail.IndexByte, LogTail.FitsCap, Lines;
    NewlinesAreLines(b);
    NewlinesAreLines(front + b);
    if front == "" {
      assert "" + b == b;
    } else if '\n' in b {
      var nl := LogTail.IndexByte(b, '\n');
      FirstLines(front, b);
      LongerStays(front, b[..nl]);
      assert b[..nl] == "" <==> b[0] == '\n';
      LaterLinesAlike(front, b);
      SameFirst(Lines(b), Lines(front + b));
    }
  }

  lemma {:induction false} SameFirst(x: seq<string>, y: seq<string>)
    requires x != [] && y != [] && x[1..] == y[1..]
    ensures x == y <==> x[0] == y[0]
  {
    assert x == [x[0]] + x[1..] && y == [y[0]] + y[1..];
  }

  lemma {:induction false} FirstLines(front: string, b: string)
    requires '\n' !in front && '\n' in b && LogTail.FitsCap(front + b, LogTail.MAX_LINE_BYTES)
    ensures
      var line := b[..LogTail.IndexByte(b, '\n')];
      && Lines(b) != [] && Lines(b)[0] == GoStrings.TrimSuffix(line, "\r")
      && Lines(front + b) != [] && Lines(front + b)[0] == GoStrings.TrimSuffix(front + line, "\r")
  {
    hide LogTail.Terminated, LogTail.IndexByte, LogTail.Clean, LogTail.FitsCap;
    LogTail.FirstRecord(b);
    FrontOfRecord(front, b);
    LogTail.FirstRecord(front + b);
    LogTail.FitsCapParts(front + b, LogTail.MAX_LINE_BYTES);
    FitsSuffix(front, b, LogTail.MAX_LINE_BYTES);
    LogTail.FitsCapParts(b, LogTail.MAX_LINE_BYTES);
  }

  lemma {:induction false} LaterLinesAlike(front: string, b: string)
    requires '\n' !in front && '\n' in b
    ensures |Lines(b)| == |Lines(front + b)| > 0 && Lines(b)[1..] == Lines(front + b)[1..]
  {
    hide LogTail.Terminated, LogTail.IndexByte, LogTail.CleanAll;
    LogTail.FirstRecord(b);
    FrontOfRecord(front, b);
    LogTail.FirstRecord(front + b);
    var nl := LogTail.IndexByte(b, '\n');
    assert (front + b)[|front| + nl + 1..] == b[nl + 1..];
    CleanTail(b[..nl], LogTail.Terminated(b[nl + 1..]));
    CleanTail(front + b[..nl], LogTail.Terminated(b[nl + 1..]));
  }

  lemma {:induction false} CleanTail(first: string, rest: seq<string>)
    ensures
      var all := LogTail.CleanAll([first] + rest, LogTail.MAX_LINE_BYTES);
      |all| == 1 + |rest| && all[1..] == LogTail.CleanAll(rest, LogTail.MAX_LINE_BYTES)
  {
    hide LogTail.Clean;
  }

  lemma {:induction false} FrontOfRecord(front: string, b: string)
    requires '\n' !in front && '\n' in b
    ensures LogTail.IndexByte(front + b, '\n') == |front| + LogTail.IndexByte(b, '\n')
    ensures (front + b)[..LogTail.IndexByte(front + b, '\n')] == front + b[..LogTail.IndexByte(b, '\n')]
  {
    hide LogTail.IndexByte;
    var nl, all := LogTail.IndexByte(b, '\n'), front + b;
    var k := LogTail.IndexByte(all, '\n');
    assert all[|front| + nl] == '\n';
    assert forall j :: 0 <= j < |front| + nl ==> all[j] == if j < |front| then front[j] else b[..nl][j - |front|];
    assert forall j :: 0 <= j < k ==> all[..k][j] != '\n';
    assert all[..|front| + nl] == front + b[..nl];
  }

  lemma {:induction false} LongerStays(front: string, r: string)
    requires front != ""
    ensures GoStrings.TrimSuffix(front + r, "\r") == GoStrings.TrimSuffix(r, "\r") <==> front == "\r" && r == ""
  {
    var all := front + r;
    assert all[|all| - 1..] == [all[|all| - 1]];
    if r != "" {
      assert r[|r| - 1..] == [r[|r| - 1]];
    }
  }

  // ---------------------------------------------------------------- what a viewer has

  /** What the current session has handed on so far. */
  function Handed(p: Pipe): seq<string>
    requires p.cur.Some?
  {
    var all := Output(p.file, p.cur.value);
    if |DueLines(p.due)| <= |all| then all[..|all| - |DueLines(p.due)|] else []
  }

  /** Viewer `i` is still attached and reading, and its channel never refused a line. */
  ghost predicate Keeping(s: TailFanout.Sys, i: nat) {
    && i < |s.clients| && i in s.t.listed && s.clients[i].phase != TailFanout.Gone && s.clients[i].dropped == {}
  }

  /** Main result with restarts: a viewer that lost nothing has, written or on its way, a contiguous end of
      everything pushed, past sessions first, and what came after its snapshot is all from the current
      session. */
  lemma {:induction false} ViewerHasSessions(level: string, steps: seq<Step>, p: Pipe, i: nat)
    requires Run(Init(level), steps, p) && p.cur.Some? && Keeping(p.fan, i)
    ensures AllSound(p.file, p.past) && Sound(p.file, p.cur.value) && InOrder(Sessions(p)) && i < |p.fan.t.subs|
    ensures
      var c := p.fan.clients[i];
      var earlier := Outputs(p.file, p.past);
      var got := c.wire + TailFanout.Pending(p.fan.t.subs[i], c);
      && got == Sequences.LastN(earlier + Handed(p), |got|)
      && |earlier| <= c.from <= |earlier + Handed(p)|
      && |got| == |earlier + Handed(p)| - (if c.from > LogTail.RING_LINES then c.from - LogTail.RING_LINES else 0)
  {
    hide Run, TailFanout.Inv, TailFanout.AllWritten, TailFanout.Expected, TailFanout.Pending, Outputs, Output, DueLines;
    hide InOrder, Sound;
    InitKeeps(level);
    EveryRunKeepsInv(Init(level), steps, p);
    TailFanout.InvOfViewer(p.fan, i);
    ListedIsAttached(p.fan, i);
    TailFanout.NothingDropped(p.fan.t, p.fan.clients[i]);
    PastIsSound(p);
    OutputsSnoc(p.file, p.past, p.cur.value);
    PushedIsHanded(Outputs(p.file, p.past), Output(p.file, p.cur.value), p.fan.t.pushed, DueLines(p.due));
    PushedSuffix(p.fan, i);
  }

  lemma {:induction false} ListedIsAttached(s: TailFanout.Sys, i: nat)
    requires TailFanout.Inv(s) && i < |s.clients| && i in s.t.listed
    ensures s.clients[i].until.None?
  {
    hide TailFanout.Expected;
    assert TailFanout.ViewerInv(s.t, s.t.subs[i], s.clients[i]);
  }

  lemma {:induction false} PushedIsHanded(earlier: seq<string>, all: seq<string>, pushed: seq<string>, due: seq<string>)
    requires pushed + due == earlier + all && |earlier| <= |pushed|
    ensures |due| <= |all| && pushed == earlier + all[..|all| - |due|]
  {
    assert pushed == (earlier + all)[..|pushed|];
  }

  lemma {:induction false} PushedSuffix(s: TailFanout.Sys, i: nat)
    requires i < |s.clients| && i < |s.t.subs|
    requires
      var c := s.clients[i];
      && c.until.None? && c.phase != TailFanout.Gone && c.dropped == {} && c.from <= |s.t.pushed|
      && c.wire + TailFanout.Pending(s.t.subs[i], c) == TailFanout.Expected(s.t, c)
      && TailFanout.Expected(s.t, c)
         == s.t.pushed[if c.from > LogTail.RING_LINES then c.from - LogTail.RING_LINES else 0..|s.t.pushed|]
    ensures
      var c := s.clients[i];
      var got := c.wire + TailFanout.Pending(s.t.subs[i], c);
      && got == Sequences.LastN(s.t.pushed, |got|)
      && |got| == |s.t.pushed| - (if c.from > LogTail.RING_LINES then c.from - LogTail.RING_LINES else 0)
  {
    hide TailFanout.Expected, TailFanout.Pending;
  }

  /** The lines of the file handed on by a first session, without those still to be published. */
  function Published(p: Pipe): seq<string>
    requires p.cur.Some? && EndOf(p.cur.value) <= |p.file|
  {
    var lines := Lines(p.file[..EndOf(p.cur.value)]);
    if |DueLines(p.due)| <= |lines| then lines[..|lines| - |DueLines(p.due)|] else []
  }

  /** Without a restart these are the newest published lines of the file, however it grew, ticks cut it and
      other viewers, status changes and sends came between. */
  lemma {:induction false} ViewerHasTailOfFile(level: string, steps: seq<Step>, p: Pipe, i: nat)
    requires Run(Init(level), steps, p) && p.cur.Some? && p.past == [] && Keeping(p.fan, i)
    requires LogTail.FitsCap(p.file, LogTail.MAX_LINE_BYTES)
    ensures EndOf(p.cur.value) <= |p.file| && i < |p.fan.t.subs|
    ensures
      var got := p.fan.clients[i].wire + TailFanout.Pending(p.fan.t.subs[i], p.fan.clients[i]);
      got == Sequences.LastN(Published(p), |got|)
  {
    hide Run, TailFanout.Pending, Output, DueLines, LogTail.FitsCap, Lines, Sound, Handed, Published, Sequences.LastN;
    hide Outputs;
    ViewerHasSessions(level, steps, p, i);
    assert Sessions(p)[0] == p.cur.value;
    NoPast(p.file);
    SoundStarts(p.file, p.cur.value);
    assert [] + Handed(p) == Handed(p);
    HandedIsPublished(p, p.fan.clients[i].wire + TailFanout.Pending(p.fan.t.subs[i], p.fan.clients[i]));
  }

  lemma {:induction false} HandedIsPublished(p: Pipe, got: seq<string>)
    requires p.cur.Some? && Sound(p.file, p.cur.value) && p.cur.value.initial
    requires LogTail.FitsCap(p.file, LogTail.MAX_LINE_BYTES) && got == Sequences.LastN(Handed(p), |got|)
    ensures EndOf(p.cur.value) <= |p.file| && got == Sequences.LastN(Published(p), |got|)
  {
    hide Output, DueLines, LogTail.FitsCap, Lines, Sound, HistorySize;
    SessionIsItsLines(p.file, p.cur.value);
    HandedIsTail(Lines(p.file[..EndOf(p.cur.value)]), Output(p.file, p.cur.value), DueLines(p.due), got);
  }

  lemma {:induction false} NoPast(file: string)
    ensures Outputs(file, []) == []
  {
  }

  lemma {:induction false} HandedIsTail(lines: seq<string>, all: seq<string>, due: seq<string>, got: seq<string>)
    requires |all| <= |lines| && all == Sequences.LastN(lines, |all|)
    requires
      var handed := if |due| <= |all| then all[..|all| - |due|] else [];
      got == Sequences.LastN(handed, |got|)
    ensures got == Sequences.LastN(if |due| <= |lines| then lines[..|lines| - |due|] else [], |got|)
  {
    if |due| <= |all| {
      var handed, sent := all[..|all| - |due|], lines[..|lines| - |due|];
      assert all == lines[|lines| - |all|..];
      assert handed == sent[|sent| - |handed|..];
      assert got == handed[|handed| - |got|..];
      assert got == sent[|sent| - |got|..];
    }
  }

  // ---------------------------------------------------------------- what the browser reads

  /** The frame written for an event; `show` is the JSON text of a status. */
  function Frame(o: TailFanout.Out, show: TailFanout.Status -> string): SseFrames.Sent {
    match o
    case LogEvent(line) => SseFrames.Sent("log", line)
    case StatusEvent(status) => SseFrames.Sent("status", show(status))
    case PingEvent => SseFrames.Sent("ping", "")
  }

  function Frames(out: seq<TailFanout.Out>, show: TailFanout.Status -> string): (r: seq<SseFrames.Sent>)
    ensures |r| == |out| && forall i :: 0 <= i < |r| ==> r[i] == Frame(out[i], show)
  {
    seq(|out|, i requires 0 <= i < |out| => Frame(out[i], show))
  }

  function LogData(events: seq<SseFrames.Event>): seq<string> {
    if events == [] then []
    else
      var last := events[|events| - 1];
      LogData(events[..|events| - 1]) + if last.kind == "log" then [last.data] else []
  }

  function AllNormalized(lines: seq<string>): seq<string> {
    seq(|lines|, i requires 0 <= i < |lines| => SseFrames.Normalized(lines[i]))
  }

  lemma {:induction false} LogEventsAreLogFrames(out: seq<TailFanout.Out>, show: TailFanout.Status -> string)
    ensures LogData(SseFrames.AllExpected(Frames(out, show))) == AllNormalized(TailFanout.LogLines(out))
  {
    if out == [] {
    } else {
      var n := |out| - 1;
      var all := SseFrames.AllExpected(Frames(out, show));
      assert all[..n] == SseFrames.AllExpected(Frames(out[..n], show));
      LogEventsAreLogFrames(out[..n], show);
      assert all[n] == SseFrames.Expected(Frame(out[n], show).name, Frame(out[n], show).payload);
    }
  }

  /** For any viewer: what it wrote parses back to its lines. */
  lemma {:induction false} BrowserReadsWire(c: TailFanout.Client, show: TailFanout.Status -> string)
    requires TailFanout.Written(c)
    ensures LogData(SseFrames.ParseStream(SseFrames.Stream(Frames(c.out, show)))) == AllNormalized(c.wire)
  {
    hide SseFrames.ParseStream, SseFrames.Stream, SseFrames.AllExpected, AllNormalized, TailFanout.LogLines;
    forall k | 0 <= k < |Frames(c.out, show)| ensures SseFrames.OneLine(Frames(c.out, show)[k].name) {
    }
    SseFrames.StreamRoundTrips(Frames(c.out, show));
    LogEventsAreLogFrames(c.out, show);
  }

  /** Main result, from file to browser: parse what the event loop wrote for such a viewer, with its pings
      and status events where they fell, and the log events are its lines in order: an end of everything
      pushed, up to the lines still on their way, and without a restart the newest published lines of the
      file. */
  lemma {:induction false} BrowserReadsTailOfFile(
    level: string, steps: seq<Step>, p: Pipe, i: nat, show: TailFanout.Status -> string)
    requires Run(Init(level), steps, p) && p.cur.Some? && Keeping(p.fan, i)
    ensures AllSound(p.file, p.past) && Sound(p.file, p.cur.value) && i < |p.fan.t.subs|
    ensures
      var c := p.fan.clients[i];
      var coming := TailFanout.Pending(p.fan.t.subs[i], c);
      && LogData(SseFrames.ParseStream(SseFrames.Stream(Frames(c.out, show)))) == AllNormalized(c.wire)
      && c.wire + coming == Sequences.LastN(Outputs(p.file, p.past) + Handed(p), |c.wire| + |coming|)
      && (p.past == [] && LogTail.FitsCap(p.file, LogTail.MAX_LINE_BYTES) ==>
            EndOf(p.cur.value) <= |p.file| && c.wire + coming == Sequences.LastN(Published(p), |c.wire| + |coming|))
  {
    hide Run, Published, Frames, LogData, AllNormalized, SseFrames.ParseStream, SseFrames.Stream, Outputs, Handed;
    hide LogTail.FitsCap, TailFanout.Inv, TailFanout.Pending, Sequences.LastN, Fed, Sound, InOrder;
    ViewerHasSessions(level, steps, p, i);
    if p.past == [] && LogTail.FitsCap(p.file, LogTail.MAX_LINE_BYTES) {
      ViewerHasTailOfFile(level, steps, p, i);
    }
    InitKeeps(level);
    EveryRunKeepsInv(Init(level), steps, p);
    BrowserReadsWire(p.fan.clients[i], show);
  }
}
