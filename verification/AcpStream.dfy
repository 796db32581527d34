/** The per-prompt chunk stream (internal/acp/stream.go): pushers, one effective closer and the
    consumer interleave at the granularity of their lock, channel and flag operations. */
module AcpStream {
  import opened Options

  const CHUNK_BUFFER: nat := 64

  datatype Chunk = Chunk(content: string)
  datatype StopReason = StopUnknown | StopKnown(name: string)

  /** The arguments of a close call: the stop reason of its result, if it has one, and its error. */
  datatype CloseArgs = CloseArgs(stop: Option<StopReason>, err: Option<string>)

  /** Where a push call stands; every place but `Entering` holds the read lock. */
  datatype PushPc = Entering | Checking | Selecting | Counting | Leaving

  datatype Pusher = Pusher(pc: PushPc, chunk: Chunk)

  /** Where the first close call stands. */
  datatype ClosePc =
    | Open       // not called yet
    | Signalled  // `done` closed
    | Waiting    // in sendMu.Lock(); new readers are held back
    | Locked     // has the write lock
    | Flagged    // `closed` set
    | Merged     // result, error and denials recorded
    | Drained    // `chunks` closed
    | Finished   // write lock released

  datatype FinalResult = FinalResult(count: nat, stop: StopReason, denials: nat)

  datatype State = State(
    pushers: map<nat, Pusher>, close: ClosePc, args: CloseArgs,
    doneClosed: bool, closed: bool, chanClosed: bool,
    buffer: seq<Chunk>, received: seq<Chunk>, accepted: seq<Chunk>,
    result: FinalResult, err: Option<string>, denialCount: nat, panicked: bool)

  datatype Step =
    | PushCall(id: nat, chunk: Chunk)
    | PushRLock(id: nat)
    | PushCheck(id: nat)
    | PushSend(id: nat)
    | PushCancelled(id: nat)
    | PushSeesDone(id: nat)
    | PushCount(id: nat)
    | PushUnlock(id: nat)
    | CloseCall(args: CloseArgs)
    | CloseWait
    | CloseLock
    | CloseFlag
    | CloseMerge
    | CloseChunks
    | CloseUnlock
    | RecordDenial
    | Receive

  predicate HoldsWrite(pc: ClosePc) {
    pc == Locked || pc == Flagged || pc == Merged || pc == Drained
  }

  function AtPc(pushers: map<nat, Pusher>, pc: PushPc): set<nat> {
    set p | p in pushers && pushers[p].pc == pc
  }

  predicate NoHolders(s: State) {
    forall p :: p in s.pushers ==> s.pushers[p].pc == Entering
  }

  predicate IsAt(s: State, p: nat, pc: PushPc) {
    p in s.pushers && s.pushers[p].pc == pc
  }

  predicate Enabled(s: State, step: Step) {
    match step
    case PushCall(p, _) => p !in s.pushers
    case PushRLock(p) => IsAt(s, p, Entering) && s.close != Waiting && !HoldsWrite(s.close)
    case PushCheck(p) => IsAt(s, p, Checking)
    case PushSend(p) => IsAt(s, p, Selecting) && (s.chanClosed || |s.buffer| < CHUNK_BUFFER)
    case PushCancelled(p) => IsAt(s, p, Selecting)
    case PushSeesDone(p) => IsAt(s, p, Selecting) && s.doneClosed
    case PushCount(p) => IsAt(s, p, Counting)
    case PushUnlock(p) => IsAt(s, p, Leaving)
    case CloseCall(_) => true
    case CloseWait => s.close == Signalled
    case CloseLock => s.close == Waiting && NoHolders(s)
    case CloseFlag => s.close == Locked
    case CloseMerge => s.close == Flagged
    case CloseChunks => s.close == Merged
    case CloseUnlock => s.close == Drained
    case RecordDenial => true
    case Receive => s.buffer != []
  }

  function Move(s: State, p: nat, pc: PushPc): State
    requires p in s.pushers
  {
    s.(pushers := s.pushers[p := s.pushers[p].(pc := pc)])
  }

  function Next(s: State, step: Step): State
    requires Enabled(s, step)
  {
    match step
    case PushCall(p, chunk) => s.(pushers := s.pushers[p := Pusher(Entering, chunk)])
    case PushRLock(p) => Move(s, p, Checking)
    case PushCheck(p) => Move(s, p, if s.closed then Leaving else Selecting)
    case PushSend(p) =>
      if s.chanClosed then s.(panicked := true)
      else
        var chunk := s.pushers[p].chunk;
        Move(s, p, Counting).(buffer := s.buffer + [chunk], accepted := s.accepted + [chunk])
    case PushCancelled(p) => Move(s, p, Leaving)
    case PushSeesDone(p) => Move(s, p, Leaving)
    case PushCount(p) => Move(s, p, Leaving).(result := s.result.(count := s.result.count + 1))
    case PushUnlock(p) => s.(pushers := s.pushers - {p})
    case CloseCall(args) =>
      if s.close == Open then s.(close := Signalled, doneClosed := true, args := args) else s
    case CloseWait => s.(close := Waiting)
    case CloseLock => s.(close := Locked)
    case CloseFlag => s.(close := Flagged, closed := true)
    case CloseMerge =>
      var stop := if s.args.stop.Some? && s.args.stop.value != StopUnknown then s.args.stop.value else s.result.stop;
      s.(close := Merged, result := s.result.(stop := stop, denials := s.denialCount), err := s.args.err)
    case CloseChunks => s.(close := Drained, chanClosed := true)
    case CloseUnlock => s.(close := Finished)
    case RecordDenial => s.(denialCount := s.denialCount + 1)
    case Receive => s.(received := s.received + [s.buffer[0]], buffer := s.buffer[1..])
  }

  function Init(): State {
    State(map[], Open, CloseArgs(None, None), false, false, false, [], [], [],
          FinalResult(0, StopUnknown, 0), None, 0, false)
  }

  // ---------------------------------------------------------------- runs

  ghost predicate Run(s: State, steps: seq<Step>, s': State)
    decreases |steps|
  {
    if steps == [] then s == s'
    else Enabled(s, steps[0]) && Run(Next(s, steps[0]), steps[1..], s')
  }

  ghost predicate Reachable(s: State) {
    exists steps :: Run(Init(), steps, s)
  }

  predicate ClosedFlagUp(pc: ClosePc) {
    pc == Flagged || pc == Merged || pc == Drained || pc == Finished
  }

  predicate ResultRecorded(pc: ClosePc) {
    pc == Merged || pc == Drained || pc == Finished
  }

  /** The stop reason a close call leaves on a fresh stream. */
  function StopOf(args: CloseArgs): StopReason {
    if args.stop.Some? then args.stop.value else StopUnknown
  }

  ghost predicate Inv(s: State) {
    && !s.panicked
    && s.accepted == s.received + s.buffer && |s.buffer| <= CHUNK_BUFFER
    && (s.doneClosed <==> s.close != Open)
    && (s.closed <==> ClosedFlagUp(s.close))
    && (s.chanClosed <==> s.close == Drained || s.close == Finished)
    && (HoldsWrite(s.close) ==> NoHolders(s))
    && (s.closed ==> AtPc(s.pushers, Selecting) == {} && AtPc(s.pushers, Counting) == {})
    && s.result.count + |AtPc(s.pushers, Counting)| == |s.accepted|
    && (if ResultRecorded(s.close) then s.result.stop == StopOf(s.args) && s.err == s.args.err
        else s.result.stop == StopUnknown && s.err == None)
  }

  lemma {:induction false} MoveAtPc(s: State, p: nat, pc: PushPc)
    requires p in s.pushers && s.pushers[p].pc != pc
    ensures
      var s' := Move(s, p, pc);
      var was := s.pushers[p].pc;
      && p in AtPc(s.pushers, was)
      && AtPc(s'.pushers, pc) == AtPc(s.pushers, pc) + {p}
      && AtPc(s'.pushers, was) == AtPc(s.pushers, was) - {p}
      && |AtPc(s'.pushers, pc)| == |AtPc(s.pushers, pc)| + 1
      && |AtPc(s'.pushers, was)| == |AtPc(s.pushers, was)| - 1
      && (forall other :: other != pc && other != was ==> AtPc(s'.pushers, other) == AtPc(s.pushers, other))
  {
    hide AtPc;
    var q := s.pushers[p].(pc := pc);
    UpdateAtPc(s.pushers, p, q, pc);
    UpdateAtPc(s.pushers, p, q, s.pushers[p].pc);
    forall other | other != pc && other != s.pushers[p].pc
      ensures AtPc(Move(s, p, pc).pushers, other) == AtPc(s.pushers, other)
    {
      UpdateAtPc(s.pushers, p, q, other);
    }
  }

  lemma {:induction false} UpdateAtPc(pushers: map<nat, Pusher>, p: nat, q: Pusher, pc: PushPc)
    requires p in pushers
    ensures p in AtPc(pushers, pc) <==> pushers[p].pc == pc
    ensures AtPc(pushers[p := q], pc) == AtPc(pushers, pc) - {p} + (if q.pc == pc then {p} else {})
    ensures pushers[p].pc != pc && q.pc != pc ==> AtPc(pushers[p := q], pc) == AtPc(pushers, pc)
  {
  }

  /** A push call entering or returning does not disturb the others. */
  lemma {:induction false} EndsAtPc(s: State, step: Step, pc: PushPc)
    requires (step.PushCall? || step.PushUnlock?) && Enabled(s, step) && pc != Entering
    ensures AtPc(Next(s, step).pushers, pc)
         == AtPc(s.pushers, pc) - (if step.PushUnlock? then {step.id} else {})
    ensures step.PushUnlock? ==> IsAt(s, step.id, Leaving) && step.id in AtPc(s.pushers, Leaving)
    ensures step.PushUnlock? && pc != Leaving ==> AtPc(Next(s, step).pushers, pc) == AtPc(s.pushers, pc)
    ensures step.PushCall? ==> AtPc(Next(s, step).pushers, pc) == AtPc(s.pushers, pc)
  {
  }

  predicate IsMove(step: Step) {
    || step.PushRLock? || step.PushCheck? || step.PushSend? || step.PushCancelled? || step.PushSeesDone?
    || step.PushCount?
  }

  function Target(s: State, step: Step): PushPc {
    match step
    case PushRLock(_) => Checking
    case PushCheck(_) => if s.closed then Leaving else Selecting
    case PushSend(_) => Counting
    case _ => Leaving
  }

  lemma {:induction false} InvMove(s: State, step: Step)
    requires Inv(s) && Enabled(s, step) && IsMove(step)
    ensures Inv(Next(s, step))
  {
    hide AtPc;
    if step.PushSend? || step.PushCount? {
      InvCounted(s, step);
    } else {
      InvQuiet(s, step);
    }
  }

  lemma {:induction false} InvCounted(s: State, step: Step)
    requires Inv(s) && Enabled(s, step) && (step.PushSend? || step.PushCount?)
    ensures Inv(Next(s, step))
  {
    hide AtPc;
    MoveAtPc(s, step.id, Target(s, step));
  }

  lemma {:induction false} InvQuiet(s: State, step: Step)
    requires Inv(s) && Enabled(s, step) && IsMove(step) && !step.PushSend? && !step.PushCount?
    ensures Inv(Next(s, step))
  {
    hide AtPc;
    if step.PushRLock? || step.PushCheck? {
      InvEnters(s, step);
    } else {
      InvLeaves(s, step);
    }
  }

  lemma {:induction false} InvEnters(s: State, step: Step)
    requires Inv(s) && Enabled(s, step) && (step.PushRLock? || step.PushCheck?)
    ensures Inv(Next(s, step))
  {
    hide AtPc;
    MoveAtPc(s, step.id, Target(s, step));
  }

  lemma {:induction false} InvLeaves(s: State, step: Step)
    requires Inv(s) && Enabled(s, step) && (step.PushCancelled? || step.PushSeesDone?)
    ensures Inv(Next(s, step))
  {
    hide AtPc;
    MoveAtPc(s, step.id, Leaving);
  }

  lemma {:induction false} InvEnds(s: State, step: Step)
    requires Inv(s) && Enabled(s, step) && (step.PushCall? || step.PushUnlock?)
    ensures Inv(Next(s, step))
  {
    hide AtPc;
    EndsAtPc(s, step, Selecting);
    EndsAtPc(s, step, Counting);
  }

  lemma {:induction false} InvClose(s: State, step: Step)
    requires Inv(s) && Enabled(s, step) && !IsMove(step) && !step.PushCall? && !step.PushUnlock?
    ensures Inv(Next(s, step))
  {
    if step == CloseFlag {
      assert AtPc(s.pushers, Selecting) == {} && AtPc(s.pushers, Counting) == {};
    }
    hide AtPc;
    if step == Receive {
      assert s.received + s.buffer == s.received + [s.buffer[0]] + s.buffer[1..];
    }
  }

  lemma {:induction false} InvStep(s: State, step: Step)
    requires Inv(s) && Enabled(s, step)
    ensures Inv(Next(s, step))
  {
    hide Inv, Next, Enabled;
    if IsMove(step) {
      InvMove(s, step);
    } else if step.PushCall? || step.PushUnlock? {
      InvEnds(s, step);
    } else {
      InvClose(s, step);
    }
  }

  lemma {:induction false} InvRun(s: State, steps: seq<Step>, s': State)
    requires Inv(s) && Run(s, steps, s')
    ensures Inv(s')
    decreases |steps|
  {
    if steps == [] {
    } else {
      InvStep(s, steps[0]);
      InvRun(Next(s, steps[0]), steps[1..], s');
    }
  }

  lemma {:induction false} InvReachable(s: State)
    requires Reachable(s)
    ensures Inv(s)
  {
    assert AtPc(Init().pushers, Counting) == {};
    var steps :| Run(Init(), steps, s);
    InvRun(Init(), steps, s);
  }

  /** In every interleaving no push is about to send on the closed channel, and none ever did. */
  lemma {:induction false} NeverSendsOnClosedChannel(s: State)
    requires Reachable(s)
    ensures !s.panicked
    ensures s.chanClosed ==> forall p :: !IsAt(s, p, Selecting)
  {
    InvReachable(s);
    assert forall p :: IsAt(s, p, Selecting) ==> p in AtPc(s.pushers, Selecting);
  }

  lemma {:induction false} RunOne(s: State, step: Step, steps: seq<Step>, s': State)
    requires Enabled(s, step) && Run(Next(s, step), steps, s')
    ensures Run(s, [step] + steps, s')
  {
    assert ([step] + steps)[1..] == steps;
  }

  lemma {:induction false} RunNone(s: State)
    ensures Run(s, [], s)
  {
  }

  // ---------------------------------------------------------------- close completes

  /** The step with which a push holding the read lock moves on once `done` is closed. */
  function Release(s: State, p: nat): Step
    requires p in s.pushers && s.pushers[p].pc != Entering
  {
    match s.pushers[p].pc
    case Checking => PushCheck(p)
    case Selecting => PushSeesDone(p)
    case Counting => PushCount(p)
    case _ => PushUnlock(p)
  }

  predicate Closing(s: State) {
    s.close == Waiting || HoldsWrite(s.close)
  }

  function CloserRank(pc: ClosePc): nat {
    match pc
    case Waiting => 5
    case Locked => 4
    case Flagged => 3
    case Merged => 2
    case Drained => 1
    case _ => 0
  }

  /** Steps still owed before close returns. */
  function Rank(s: State): nat {
    CloserRank(s.close)
      + 4 * |AtPc(s.pushers, Checking)| + 3 * |AtPc(s.pushers, Selecting)|
      + 2 * |AtPc(s.pushers, Counting)| + |AtPc(s.pushers, Leaving)|
  }

  /** The steps of the closer and of pushes inside the read lock. */
  predicate IsProgress(step: Step) {
    || step.PushCheck? || step.PushSend? || step.PushCancelled? || step.PushSeesDone? || step.PushCount?
    || step.PushUnlock?
    || step.CloseLock? || step.CloseFlag? || step.CloseMerge? || step.CloseChunks? || step.CloseUnlock?
  }

  /** While close waits, every push inside the lock can move on without the consumer and without its
      context; once none is left, or once close has the lock, the closer itself can move on. */
  lemma {:induction false} CloseIsNeverStuck(s: State)
    requires Reachable(s) && Closing(s)
    ensures forall p :: p in s.pushers && s.pushers[p].pc != Entering ==> Enabled(s, Release(s, p))
    ensures NoHolders(s) ==> exists step :: IsProgress(step) && Enabled(s, step)
    ensures exists step :: IsProgress(step) && Enabled(s, step)
  {
    InvReachable(s);
    if NoHolders(s) {
      var step := match s.close
                  case Waiting => CloseLock
                  case Locked => CloseFlag
                  case Flagged => CloseMerge
                  case Merged => CloseChunks
                  case _ => CloseUnlock;
      assert IsProgress(step) && Enabled(s, step);
    } else {
      var p :| p in s.pushers && s.pushers[p].pc != Entering;
      assert IsProgress(Release(s, p)) && Enabled(s, Release(s, p));
    }
  }

  lemma {:induction false} RankMove(s: State, step: Step)
    requires Inv(s) && Closing(s) && Enabled(s, step) && IsMove(step)
    ensures Next(s, step).close == s.close && Rank(Next(s, step)) <= Rank(s) - 1
  {
    hide AtPc;
    MoveAtPc(s, step.id, Target(s, step));
  }

  lemma {:induction false} RankEnds(s: State, step: Step)
    requires Inv(s) && Closing(s) && Enabled(s, step) && (step.PushCall? || step.PushUnlock?)
    ensures Next(s, step).close == s.close
    ensures Rank(Next(s, step)) == Rank(s) - (if step.PushUnlock? then 1 else 0)
  {
    hide AtPc;
    EndsAtPc(s, step, Checking);
    EndsAtPc(s, step, Selecting);
    EndsAtPc(s, step, Counting);
    EndsAtPc(s, step, Leaving);
  }

  lemma {:induction false} RankStep(s: State, step: Step)
    requires Inv(s) && Closing(s) && Enabled(s, step)
    ensures Closing(Next(s, step)) || Next(s, step).close == Finished
    ensures Closing(Next(s, step)) ==>
              Rank(Next(s, step)) <= Rank(s) - (if IsProgress(step) then 1 else 0)
  {
    if IsMove(step) {
      RankMove(s, step);
    } else if step.PushCall? || step.PushUnlock? {
      RankEnds(s, step);
    }
  }

  /** Progress steps taken before close finishes. */
  ghost function Work(s: State, steps: seq<Step>, s': State): nat
    requires Run(s, steps, s')
    decreases |steps|
  {
    if steps == [] || !Closing(s) then 0
    else (if IsProgress(steps[0]) then 1 else 0) + Work(Next(s, steps[0]), steps[1..], s')
  }

  lemma {:induction false} WorkIsBounded(s: State, steps: seq<Step>, s': State)
    requires Inv(s) && Closing(s) && Run(s, steps, s')
    ensures Work(s, steps, s') <= Rank(s)
    ensures Work(s, steps, s') == Rank(s) ==> s'.close == Finished
    decreases |steps|
  {
    if steps == [] {
      assert Rank(s) >= CloserRank(s.close) >= 1;
    } else {
      hide Rank;
      var s1 := Next(s, steps[0]);
      InvStep(s, steps[0]);
      RankStep(s, steps[0]);
      if Closing(s1) {
        WorkIsBounded(s1, steps[1..], s');
      } else {
        FinishedStays(s1, steps[1..], s');
        RankPositive(s);
      }
    }
  }

  lemma {:induction false} RankPositive(s: State)
    requires Closing(s)
    ensures Rank(s) >= 1
  {
  }

  lemma {:induction false} FinishedStays(s: State, steps: seq<Step>, s': State)
    requires Inv(s) && s.close == Finished && Run(s, steps, s')
    ensures s'.close == Finished && Work(s, steps, s') == 0
    decreases |steps|
  {
    if steps == [] {
    } else {
      InvStep(s, steps[0]);
      FinishedStays(Next(s, steps[0]), steps[1..], s');
    }
  }

  /** A close that waits for the write lock completes within `Rank` steps of the closer and of the
      pushes it waits for, whatever else interleaves. */
  lemma {:induction false} CloseCompletes(s: State, steps: seq<Step>, s': State)
    requires Reachable(s) && Closing(s) && Run(s, steps, s')
    ensures Work(s, steps, s') <= Rank(s)
    ensures Work(s, steps, s') == Rank(s) ==> s'.close == Finished
  {
    InvReachable(s);
    WorkIsBounded(s, steps, s');
  }

  /** A step with which close gets on once it was called: its own, or of a push inside the lock that sees `done`. */
  predicate ServesClose(step: Step) {
    || step.CloseWait? || step.CloseLock? || step.CloseFlag? || step.CloseMerge? || step.CloseChunks?
    || step.CloseUnlock? || step.PushCheck? || step.PushSeesDone? || step.PushCount? || step.PushUnlock?
  }

  lemma {:induction false} GetsOn(s: State) returns (step: Step)
    requires Inv(s) && (s.close == Signalled || Closing(s))
    ensures ServesClose(step) && Enabled(s, step) && Next(s, step).close != Open
    ensures if s.close == Signalled then Next(s, step).close == Waiting else IsProgress(step)
  {
    if s.close == Signalled {
      step := CloseWait;
    } else if NoHolders(s) {
      step := match s.close
              case Waiting => CloseLock
              case Locked => CloseFlag
              case Flagged => CloseMerge
              case Merged => CloseChunks
              case _ => CloseUnlock;
    } else {
      var p :| p in s.pushers && s.pushers[p].pc != Entering;
      step := Release(s, p);
    }
  }

  /** From wherever close was called it can run to its end without the consumer and without any push's context. */
  lemma {:induction false} CloseCanFinish(s: State) returns (steps: seq<Step>, s': State)
    requires Inv(s) && s.close != Open
    ensures Run(s, steps, s') && s'.close == Finished && forall k :: 0 <= k < |steps| ==> ServesClose(steps[k])
    decreases if s.close == Signalled then 1 else 0, Rank(s)
  {
    hide Run, Inv, Rank, Enabled, Next;
    if s.close == Finished {
      steps, s' := [], s;
      RunNone(s);
    } else {
      var step := GetsOn(s);
      InvStep(s, step);
      if s.close != Signalled {
        RankStep(s, step);
      }
      var later;
      if Next(s, step).close == Finished {
        later, s' := [], Next(s, step);
        RunNone(s');
      } else {
        later, s' := CloseCanFinish(Next(s, step));
      }
      steps := [step] + later;
      RunOne(s, step, later, s');
    }
  }

  // ---------------------------------------------------------------- what a push does

  /** The steps of a push call that nothing holds up. */
  function WholePush(p: nat): seq<Step> {
    [PushRLock(p), PushCheck(p), PushSend(p), PushCount(p), PushUnlock(p)]
  }

  /** While close was not called and fewer than 64 chunks wait, a push can run to its end by itself; it appends its
      chunk, counts it and leaves nothing else behind. */
  lemma {:induction false} PushDelivers(s: State, p: nat)
    requires Reachable(s) && s.close == Open && |s.buffer| < 64 && IsAt(s, p, Entering)
    ensures
      var chunk := s.pushers[p].chunk;
      Run(s, WholePush(p),
          s.(pushers := s.pushers - {p}, buffer := s.buffer + [chunk], accepted := s.accepted + [chunk],
             result := s.result.(count := s.result.count + 1)))
  {
    InvReachable(s);
    hide Inv, Run, Next, Enabled, WholePush;
    var s2 := Admitted(s, p);
    var s4 := Sent(s2, p);
    var s5 := s4.(pushers := s4.pushers - {p});
    Admits(s, p);
    Sends(s2, p);
    Returns(s4, p);
    assert s5.pushers == s.pushers - {p};
    RunInFive(s, p, s2, s4, s5);
  }

  lemma {:induction false} RunInFive(s: State, p: nat, s2: State, s4: State, s5: State)
    requires Enabled(s, PushRLock(p)) && Enabled(Next(s, PushRLock(p)), PushCheck(p))
    requires Next(Next(s, PushRLock(p)), PushCheck(p)) == s2
    requires Enabled(s2, PushSend(p)) && Enabled(Next(s2, PushSend(p)), PushCount(p))
    requires Next(Next(s2, PushSend(p)), PushCount(p)) == s4
    requires Enabled(s4, PushUnlock(p)) && Next(s4, PushUnlock(p)) == s5
    ensures Run(s, WholePush(p), s5)
  {
    hide Next, Enabled, Run;
    RunNone(s5);
    var last, back := [PushUnlock(p)], [PushCount(p), PushUnlock(p)];
    var half, most := [PushSend(p)] + back, [PushCheck(p), PushSend(p)] + back;
    assert last == [PushUnlock(p)] + [] && back == [PushCount(p)] + last;
    assert most == [PushCheck(p)] + half && WholePush(p) == [PushRLock(p)] + most;
    RunOne(s4, PushUnlock(p), [], s5);
    RunOne(Next(s2, PushSend(p)), PushCount(p), last, s5);
    RunOne(s2, PushSend(p), back, s5);
    RunOne(Next(s, PushRLock(p)), PushCheck(p), half, s5);
    RunOne(s, PushRLock(p), most, s5);
  }

  function Admitted(s: State, p: nat): State
    requires p in s.pushers
  {
    s.(pushers := s.pushers[p := Pusher(Selecting, s.pushers[p].chunk)])
  }

  function Sent(s: State, p: nat): State
    requires p in s.pushers
  {
    var chunk := s.pushers[p].chunk;
    s.(pushers := s.pushers[p := Pusher(Leaving, chunk)], buffer := s.buffer + [chunk],
       accepted := s.accepted + [chunk], result := s.result.(count := s.result.count + 1))
  }

  lemma {:induction false} Admits(s: State, p: nat)
    requires s.close == Open && !s.closed && IsAt(s, p, Entering)
    ensures Enabled(s, PushRLock(p)) && Enabled(Next(s, PushRLock(p)), PushCheck(p))
    ensures Next(Next(s, PushRLock(p)), PushCheck(p)) == Admitted(s, p) && IsAt(Admitted(s, p), p, Selecting)
  {
    assert s.pushers[p := Pusher(Checking, s.pushers[p].chunk)][p := Pusher(Selecting, s.pushers[p].chunk)]
        == s.pushers[p := Pusher(Selecting, s.pushers[p].chunk)];
  }

  lemma {:induction false} Sends(s: State, p: nat)
    requires !s.chanClosed && |s.buffer| < 64 && IsAt(s, p, Selecting)
    ensures Enabled(s, PushSend(p)) && Enabled(Next(s, PushSend(p)), PushCount(p))
    ensures Next(Next(s, PushSend(p)), PushCount(p)) == Sent(s, p) && IsAt(Sent(s, p), p, Leaving)
  {
    assert s.pushers[p := Pusher(Counting, s.pushers[p].chunk)][p := Pusher(Leaving, s.pushers[p].chunk)]
        == s.pushers[p := Pusher(Leaving, s.pushers[p].chunk)];
  }

  lemma {:induction false} Returns(s: State, p: nat)
    requires IsAt(s, p, Leaving)
    ensures Enabled(s, PushUnlock(p)) && Next(s, PushUnlock(p)) == s.(pushers := s.pushers - {p})
  {
  }

  /** Once the flag is set, whatever runs, no further chunk is accepted or counted. */
  lemma {:induction false} NothingAfterTheFlag(s: State, steps: seq<Step>, s': State)
    requires Reachable(s) && s.closed && Run(s, steps, s')
    ensures s'.accepted == s.accepted && s'.result.count == s.result.count
  {
    InvReachable(s);
    FlagStays(s, steps, s');
  }

  lemma {:induction false} FlagStays(s: State, steps: seq<Step>, s': State)
    requires Inv(s) && s.closed && Run(s, steps, s')
    ensures s'.accepted == s.accepted && s'.result.count == s.result.count
    decreases |steps|
  {
    hide Next, Enabled, Inv;
    if steps == [] {
    } else {
      InvStep(s, steps[0]);
      FlagStep(s, steps[0]);
      FlagStays(Next(s, steps[0]), steps[1..], s');
    }
  }

  lemma {:induction false} FlagStep(s: State, step: Step)
    requires Inv(s) && s.closed && Enabled(s, step)
    ensures Next(s, step).closed && Next(s, step).accepted == s.accepted
    ensures Next(s, step).result.count == s.result.count
  {
    assert forall p :: IsAt(s, p, Counting) ==> p in AtPc(s.pushers, Counting);
    assert forall p :: IsAt(s, p, Selecting) ==> p in AtPc(s.pushers, Selecting);
  }

  /** A push in its select can send if and only if fewer than 64 chunks wait, and can give up without its context if
      and only if close was called. */
  lemma {:induction false} SelectExactly(s: State, p: nat)
    requires Reachable(s) && IsAt(s, p, Selecting)
    ensures Enabled(s, PushSend(p)) <==> |s.buffer| < 64
    ensures Enabled(s, PushSeesDone(p)) <==> s.close != Open
  {
    InvReachable(s);
    assert p in AtPc(s.pushers, Selecting);
  }

  // ---------------------------------------------------------------- what the consumer learns

  /** The chunks put on the channel by a run, in push order. */
  ghost function Pushed(s: State, steps: seq<Step>, s': State): seq<Chunk>
    requires Run(s, steps, s')
    decreases |steps|
  {
    if steps == [] then []
    else
      (if steps[0].PushSend? && !s.chanClosed then [s.pushers[steps[0].id].chunk] else [])
        + Pushed(Next(s, steps[0]), steps[1..], s')
  }

  function FirstClose(steps: seq<Step>): Option<CloseArgs> {
    if steps == [] then None
    else if steps[0].CloseCall? then Some(steps[0].args)
    else FirstClose(steps[1..])
  }

  /** Denials recorded before the first close call records its result. */
  function DenialsBeforeMerge(steps: seq<Step>): nat {
    if steps == [] || steps[0] == CloseMerge then 0
    else (if steps[0] == RecordDenial then 1 else 0) + DenialsBeforeMerge(steps[1..])
  }

  lemma {:induction false} HistoryOfRun(s: State, steps: seq<Step>, s': State)
    requires Inv(s) && Run(s, steps, s')
    ensures s'.accepted == s.accepted + Pushed(s, steps, s')
    ensures s.close == Open && FirstClose(steps).Some? ==> s'.args == FirstClose(steps).value
    ensures s.close == Open && FirstClose(steps).None? ==> s'.close == Open
    ensures s.close != Open ==> s'.args == s.args && s'.close != Open
    ensures !ResultRecorded(s.close) && ResultRecorded(s'.close) ==>
              s'.result.denials == s.denialCount + DenialsBeforeMerge(steps)
    ensures ResultRecorded(s.close) ==> ResultRecorded(s'.close) && s'.result.denials == s.result.denials
    decreases |steps|
  {
    hide Next, Enabled, Inv;
    if steps == [] {
      assert s.accepted + [] == s.accepted;
    } else {
      HistoryStep(s, steps[0]);
      InvStep(s, steps[0]);
      HistoryOfRun(Next(s, steps[0]), steps[1..], s');
    }
  }

  lemma {:induction false} HistoryStep(s: State, step: Step)
    requires Inv(s) && Enabled(s, step)
    ensures
      var s' := Next(s, step);
      && s'.accepted == s.accepted + (if step.PushSend? && !s.chanClosed then [s.pushers[step.id].chunk] else [])
      && (s.close == Open ==>
            if step.CloseCall? then s'.args == step.args && s'.close == Signalled else s'.close == Open)
      && (s.close != Open ==> s'.args == s.args && s'.close != Open)
      && (!ResultRecorded(s.close) ==>
            if step == CloseMerge then ResultRecorded(s'.close) && s'.result.denials == s.denialCount
            else !ResultRecorded(s'.close) && s'.denialCount == s.denialCount + (if step == RecordDenial then 1 else 0))
      && (ResultRecorded(s.close) ==> ResultRecorded(s'.close) && s'.result.denials == s.result.denials)
  {
    assert s.accepted + [] == s.accepted;
  }

  /** A consumer that has read `Chunks` to its end has every pushed chunk in push order, and the
      result it then asks for counts exactly those and carries the stop reason, error and denials of
      the first close; nothing attempted later changes any of it. */
  lemma {:induction false} ConsumerSeesFinalResult(steps: seq<Step>, s: State, more: seq<Step>, later: State)
    requires Run(Init(), steps, s) && s.chanClosed && s.buffer == []
    requires Run(s, more, later)
    ensures s.received == Pushed(Init(), steps, s) && s.result.count == |s.received|
    ensures FirstClose(steps).Some?
    ensures s.result.stop == StopOf(FirstClose(steps).value) && s.err == FirstClose(steps).value.err
    ensures s.result.denials == DenialsBeforeMerge(steps)
    ensures later.result == s.result && later.err == s.err && later.received == s.received && later.buffer == []
  {
    assert AtPc(Init().pushers, Counting) == {};
    InvRun(Init(), steps, s);
    HistoryOfRun(Init(), steps, s);
    assert [] + Pushed(Init(), steps, s) == Pushed(Init(), steps, s);
    FinalStays(s, more, later);
  }

  lemma {:induction false} FinalStays(s: State, steps: seq<Step>, s': State)
    requires Inv(s) && s.chanClosed && s.buffer == [] && Run(s, steps, s')
    ensures s'.result == s.result && s'.err == s.err && s'.received == s.received && s'.buffer == []
    decreases |steps|
  {
    hide Next, Enabled, Inv;
    if steps == [] {
    } else {
      InvStep(s, steps[0]);
      FinalStep(s, steps[0]);
      FinalStays(Next(s, steps[0]), steps[1..], s');
    }
  }

  lemma {:induction false} FinalStep(s: State, step: Step)
    requires Inv(s) && s.chanClosed && s.buffer == [] && Enabled(s, step)
    ensures
      var s' := Next(s, step);
      s'.chanClosed && s'.buffer == [] && s'.result == s.result && s'.err == s.err && s'.received == s.received
  {
    assert forall p :: IsAt(s, p, Counting) ==> p in AtPc(s.pushers, Counting);
    assert forall p :: IsAt(s, p, Selecting) ==> p in AtPc(s.pushers, Selecting);
  }

  /** What Result reports is what the first close call said. */
  predicate Settled(s: State) {
    s.result.stop == StopOf(s.args) && s.err == s.args.err
  }

  /** Result waits for `done` only. Once that is closed it reports the first close call's outcome if and
      only if the outcome is already merged, or is the blank one a fresh stream shows anyway; a caller
      that has seen `Chunks` closed is always past the merge, and then every accepted chunk is counted. */
  lemma {:induction false} ResultIsRightExactlyWhen(s: State)
    requires Reachable(s) && s.doneClosed
    ensures Settled(s) <==> ResultRecorded(s.close) || (StopOf(s.args) == StopUnknown && s.args.err == None)
    ensures s.chanClosed ==> ResultRecorded(s.close)
    ensures ResultRecorded(s.close) ==> s.result.count == |s.accepted|
  {
    InvReachable(s);
  }

  /** Waiting for `done` alone is not enough: whatever known stop reason or error a close call brings,
      there is a moment at which `done` is closed, `Chunks` is open and Result would be wrong. */
  lemma {:induction false} DoneAloneIsEarly(args: CloseArgs)
    requires StopOf(args) != StopUnknown || args.err.Some?
    ensures exists s :: Reachable(s) && s.doneClosed && !s.chanClosed && s.args == args && !Settled(s)
  {
    var step := CloseCall(args);
    var s := Next(Init(), step);
    assert Run(s, [step][1..], s);
    assert Run(Init(), [step], s);
    assert Reachable(s) && s.doneClosed && !s.chanClosed && s.args == args && !Settled(s);
  }
}
