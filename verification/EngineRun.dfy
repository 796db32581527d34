/** The request life cycle (internal/engine/engine.go Run and its two recoveries, collect.go Collect).
    Everything the code asks of its surroundings - hooks, the ACP client, captures, the context - is
    answered by a `Script`; every effect is appended to a log. */
module EngineRun {
  import opened Options
  import opened GoStrings
  import opened Fences
  import opened ToolCallScan
  import opened ToolCallWrappers

  datatype PreResult = PreContinue | PreRespond | PreError | PrePanic
  datatype PostResult = PostOk | PostError | PostPanic

  /** One captured attempt of the initial tool protocol, with its text. `EarlyStop` hands over a live stream
      because a native call satisfied the policy; only a fully buffered attempt can still need correction.
      `accepted`: classifying it, if that returns, gives no reason to correct. */
  datatype Capture = CaptureFailed | Bypass | EarlyStop(text: string) | Buffered(text: string, accepted: bool)

  /** The tool-result protocol captures with an empty policy, so nothing stops it early. `native`: there was
      a native call; `refusal`: the text reads as a refusal to use the result. */
  datatype ResultCapture = ResultFailed | ResultBypass | ResultBuffered(text: string, native: bool, refusal: bool)

  datatype RangeResult = RangeOk | RangeIdleTimeout | RangeError

  datatype Script = Script(
    requestNil: bool, explicitModel: bool, pre: seq<PreResult>, post: seq<PostResult>,
    session: Option<string>, setModelOk: bool,
    toolGuard: bool, resultGuard: bool, hasSequence: bool, beginOk: bool,
    promptOk: bool, first: Capture, firstResult: ResultCapture, ctxDoneAfterFirst: bool,
    correctivePromptOk: bool, second: Capture, secondResult: ResultCapture, ctxDoneAfterSecond: bool,
    range: RangeResult, resultOk: bool,
    tools: seq<ToolSpec>, decode: Decoder, clock: nat -> nat)

  datatype Outcome = FirstAttempt | Corrected | FallbackFirstAttempt | BufferBypass | Failed

  datatype Event =
    | PreCalled(hook: nat)
    | PostCalled(hook: nat)
    | SetModel(sid: string)
    | SequenceBegun(sid: string)
    | SequenceFinished
    | Prompted(sid: string, corrective: bool)
    | WatchdogArmed
    | WatchdogStopped
    | Cancelled(sid: string)
    | Protocol(outcome: Outcome, attempts: nat)

  // ---------------------------------------------------------------- tallies of a log

  datatype Tally = Tally(
    posts: seq<nat>, sids: set<string>, begun: nat, finished: nat, prompts: nat, correctives: nat,
    armed: nat, stopped: nat, cancels: nat, outcomes: seq<Outcome>, attempts: nat)

  function NoTally(): Tally {
    Tally([], {}, 0, 0, 0, 0, 0, 0, 0, [], 0)
  }

  function Count(t: Tally, e: Event): Tally {
    match e
    case PreCalled(_) => t
    case PostCalled(h) => t.(posts := t.posts + [h])
    case SetModel(sid) => t.(sids := t.sids + {sid})
    case SequenceBegun(sid) => t.(sids := t.sids + {sid}, begun := t.begun + 1)
    case SequenceFinished => t.(finished := t.finished + 1)
    case Prompted(sid, corrective) =>
      t.(sids := t.sids + {sid}, prompts := t.prompts + 1, correctives := t.correctives + if corrective then 1 else 0)
    case WatchdogArmed => t.(armed := t.armed + 1)
    case WatchdogStopped => t.(stopped := t.stopped + 1)
    case Cancelled(sid) => t.(sids := t.sids + {sid}, cancels := t.cancels + 1)
    case Protocol(o, n) => t.(outcomes := t.outcomes + [o], attempts := t.attempts + n)
  }

  function TallyOf(log: seq<Event>): Tally {
    if log == [] then NoTally() else Count(TallyOf(log[..|log| - 1]), log[|log| - 1])
  }

  method Emit(log: seq<Event>, e: Event) returns (log': seq<Event>)
    ensures log' == log + [e] && TallyOf(log') == Count(TallyOf(log), e)
  {
    log' := log + [e];
    assert log'[..|log|] == log;
  }

  /** 0, 1, ..., n - 1: every hook once, in registration order. */
  function Upto(n: nat): seq<nat> {
    seq(n, i => i)
  }

  // ---------------------------------------------------------------- hooks

  function FirstFailing(post: seq<PostResult>): (r: Option<nat>)
    ensures r.Some? ==> r.value < |post| && post[r.value] != PostOk
    ensures r.Some? ==> forall k :: 0 <= k < r.value ==> post[k] == PostOk
    ensures r.None? ==> forall k :: 0 <= k < |post| ==> post[k] == PostOk
  {
    if post == [] then None
    else if post[0] != PostOk then Some(0)
    else match FirstFailing(post[1..]) case None => None case Some(k) => Some(k + 1)
  }

  /** The whole chain runs whatever single hooks do; the first failure is what is reported. */
  method RunPostHooks(post: seq<PostResult>, log: seq<Event>) returns (firstErr: Option<nat>, log': seq<Event>)
    ensures TallyOf(log') == TallyOf(log).(posts := TallyOf(log).posts + Upto(|post|))
    ensures firstErr == FirstFailing(post)
  {
    log', firstErr := log, None;
    ghost var before := TallyOf(log);
    assert before.posts + Upto(0) == before.posts;
    for i := 0 to |post|
      invariant TallyOf(log') == before.(posts := before.posts + Upto(i))
      invariant firstErr.None? ==> forall k :: 0 <= k < i ==> post[k] == PostOk
      invariant firstErr.Some? ==> firstErr.value < i && post[firstErr.value] != PostOk
                                   && forall k :: 0 <= k < firstErr.value ==> post[k] == PostOk
    {
      // A panicking hook is recovered and counts as one that returned an error.
      log' := Emit(log', PostCalled(i));
      assert before.posts + Upto(i) + [i] == before.posts + Upto(i + 1);
      if post[i] != PostOk && firstErr.None? {
        firstErr := Some(i);
      }
    }
  }

  // ---------------------------------------------------------------- Run

  /** `owesFinish`: the returned live stream releases the prompt-sequence hold when it ends. `RunPanicked`:
      the call unwinds without returning anything. */
  datatype RunResult =
    | RunFailed
    | RunPanicked
    | ShortCircuit
    | Handle(sid: string, owesFinish: bool, stream: nat)

  predicate Guarded(sc: Script) {
    sc.toolGuard || sc.resultGuard
  }

  /** No PreHook answered or failed before index `n`. */
  predicate Continues(pre: seq<PreResult>, n: nat)
    requires n <= |pre|
  {
    forall k :: 0 <= k < n ==> pre[k] == PreContinue
  }

  predicate FirstPreHookFails(sc: Script) {
    sc.pre != [] && (sc.pre[0] == PreError || sc.pre[0] == PrePanic)
  }

  // ---------------------------------------------------------------- looking at replies

  /** The extractor panics on a reply that does not decode and is a fence around nothing. */
  predicate ExtractorPanics(sc: Script, text: string) {
    sc.decode(text).None? && SharedNewline(text)
  }

  predicate ObserverPanics(sc: Script, text: string) {
    |text| <= MAX_SCAN_BYTES && ExtractorPanics(sc, text)
  }

  predicate NoWrapper(sc: Script, text: string) {
    Observation(text, sc.tools, sc.decode) == Done(WrapperNone)
  }

  /** Every first attempt that is no bypass is observed; a buffered one of the tool protocol is also
      searched for calls. */
  predicate FirstPanics(sc: Script) {
    if sc.toolGuard then
      match sc.first
      case EarlyStop(text) => ObserverPanics(sc, text)
      case Buffered(text, _) => ExtractorPanics(sc, text)
      case _ => false
    else
      sc.resultGuard && sc.firstResult.ResultBuffered? && ObserverPanics(sc, sc.firstResult.text)
  }

  predicate Rejected(c: Capture) {
    c.Buffered? && !c.accepted
  }

  /** The buffered answer to a tool result is a refusal and nothing else. */
  predicate NeedsCorrection(sc: Script, c: ResultCapture) {
    c.ResultBuffered? && !c.native && NoWrapper(sc, c.text) && c.refusal
  }

  /** Whether a corrected answer gets as far as being observed. */
  predicate LooksLikeProse(c: ResultCapture) {
    c.ResultBuffered? && !c.native && TrimSpace(c.text) != "" && !c.refusal
  }

  predicate FinalProse(sc: Script, c: ResultCapture) {
    LooksLikeProse(c) && NoWrapper(sc, c.text)
  }

  /** The first attempt was buffered whole and found wanting. */
  predicate FirstRejected(sc: Script) {
    && Guarded(sc) && !FirstPanics(sc)
    && if sc.toolGuard then Rejected(sc.first) else NeedsCorrection(sc, sc.firstResult)
  }

  predicate SecondPanics(sc: Script) {
    if sc.toolGuard then sc.second.Buffered? && ExtractorPanics(sc, sc.second.text)
    else sc.resultGuard && LooksLikeProse(sc.secondResult) && ObserverPanics(sc, sc.secondResult.text)
  }

  /** The first prompt went out. */
  predicate PromptSent(sc: Script) {
    && OpensSession(sc) && (sc.explicitModel ==> sc.setModelOk)
    && (Guarded(sc) && sc.hasSequence ==> sc.beginOk) && sc.promptOk
  }

  /** Some reply of a guarded run makes the engine panic. */
  predicate Panics(sc: Script) {
    && Guarded(sc) && PromptSent(sc)
    && (FirstPanics(sc) || (FirstRejected(sc) && CorrectionSent(sc) && SecondPanics(sc)))
  }

  // ---------------------------------------------------------------- what a run leaves behind

  /** `stream` (0: first prompt, 1: corrective prompt) may be handed to the caller after `correctives`
      corrective prompts, reported as `outcomes`. A rejected attempt is never released, except that a
      refused tool result falls back to the first one once the correction was tried. */
  predicate Releases(sc: Script, stream: nat, correctives: nat, outcomes: seq<Outcome>) {
    stream <= 1 &&
    if sc.toolGuard then
      var c := if stream == 0 then sc.first else sc.second;
      && c != CaptureFailed && !Rejected(c) && correctives == stream
      && outcomes == [if c == Bypass then BufferBypass else if stream == 0 then FirstAttempt else Corrected]
    else if sc.resultGuard then
      var c := if stream == 0 then sc.firstResult else sc.secondResult;
      if stream == 0 && NeedsCorrection(sc, c) then correctives == 1 && outcomes == [FallbackFirstAttempt]
      else
        && c != ResultFailed && correctives == stream && (stream == 1 ==> c == ResultBypass || FinalProse(sc, c))
        && outcomes == [if c == ResultBypass then BufferBypass else if stream == 0 then FirstAttempt else Corrected]
    else
      stream == 0 && correctives == 0 && outcomes == []
  }

  /** The released stream still reads from the agent, so the hold outlives Run. */
  predicate Live(sc: Script, stream: nat) {
    if sc.toolGuard then
      var c := if stream == 0 then sc.first else sc.second;
      c == Bypass || c.EarlyStop?
    else
      sc.resultGuard && (if stream == 0 then sc.firstResult else sc.secondResult) == ResultBypass
  }

  /** What one attempt to serve a request leaves behind. The hold outlives Run exactly when it began and the
      released capture is not fully buffered. */
  ghost predicate RunContract(sc: Script, r: RunResult, t: Tally) {
    && t.sids <= (if sc.session.Some? then {sc.session.value} else {})
    && t.prompts <= 2 && t.begun <= 1 && (r != RunPanicked ==> t.attempts == t.correctives)
    && t.correctives == (if t.armed == 1 && FirstRejected(sc) && !sc.ctxDoneAfterFirst then 1 else 0)
    && match r
       case ShortCircuit => t == NoTally()
       case Handle(sid, owesFinish, stream) =>
         && sc.session == Some(sid) && t.posts == [] && t.cancels == 0
         && t.prompts == 1 + t.correctives && t.armed == 1 && t.stopped == 0
         && Releases(sc, stream, t.correctives, t.outcomes)
         && t.begun == (if Guarded(sc) && sc.hasSequence then 1 else 0)
         && t.finished + (if owesFinish then 1 else 0) == t.begun
         && (owesFinish ==> t.begun == 1)
         && (t.begun == 1 && sc.toolGuard ==>
               owesFinish == !(if stream == 0 then sc.first else sc.second).Buffered?)
         && (t.begun == 1 && !sc.toolGuard ==>
               owesFinish == !(if stream == 0 then sc.firstResult else sc.secondResult).ResultBuffered?)
       case RunPanicked =>
         && t.posts == [] && t.cancels == 0 && t.finished == 0 && t.stopped == 0 && t.outcomes == []
         && t.prompts == 1 + t.correctives && t.armed == 1 && t.begun == (if sc.hasSequence then 1 else 0)
       case RunFailed =>
         && t.finished == t.begun && t.stopped == t.armed
         && t.posts == (if sc.requestNil || FirstPreHookFails(sc) then [] else Upto(|sc.post|))
         && (t.cancels == 0 || t.cancels == 1)
         && (t.cancels == 0 ==> t.prompts == 0 && t.outcomes == [])
         && (t.cancels == 1 ==>
               t.outcomes == if Guarded(sc) || (sc.explicitModel && !sc.setModelOk) then [Failed] else [])
  }

  /** Nothing in the script stops the request from being served. */
  predicate Serves(sc: Script) {
    && PromptSent(sc) && !Panics(sc)
    && (if sc.toolGuard then
          && sc.first != CaptureFailed
          && (FirstRejected(sc) ==> CorrectionSent(sc) && sc.second != CaptureFailed && !Rejected(sc.second))
        else if sc.resultGuard then
          && sc.firstResult != ResultFailed
          && (FirstRejected(sc) ==>
                && CorrectionSent(sc) && sc.secondResult != ResultFailed
                && (sc.ctxDoneAfterSecond ==> sc.secondResult == ResultBypass || FinalProse(sc, sc.secondResult)))
        else true)
  }

  predicate CorrectionSent(sc: Script) {
    !sc.ctxDoneAfterFirst && sc.correctivePromptOk
  }

  /** The session was opened exactly when every PreHook let the request through and NewSession worked. */
  predicate OpensSession(sc: Script) {
    !sc.requestNil && Continues(sc.pre, |sc.pre|) && sc.session.Some?
  }

  /** A PreHook answers the request itself before any other stops it. */
  predicate Answered(sc: Script) {
    !sc.requestNil && exists k :: 0 <= k < |sc.pre| && Continues(sc.pre, k) && sc.pre[k] == PreRespond
  }

  /** When a correction is due, said on the first reply: a fully buffered attempt that was not accepted and did not
      make the extractor panic; after a tool result, a buffered refusal without a native call in which the observer
      sees no wrapper. */
  lemma {:induction false} CorrectionIsDueExactly(sc: Script)
    ensures FirstRejected(sc) <==>
            if sc.toolGuard then
              exists text :: sc.first == Buffered(text, false) && !(sc.decode(text).None? && SharedNewline(text))
            else
              sc.resultGuard && exists text ::
                && sc.firstResult == ResultBuffered(text, false, true)
                && Observation(text, sc.tools, sc.decode) == Done(WrapperNone)
  {
    hide Observation, SharedNewline;
    if !sc.toolGuard && sc.resultGuard && sc.firstResult.ResultBuffered? {
      ObserverPanicsExactly(sc.firstResult.text, sc.tools, sc.decode);
    }
  }

  /** What reaches the caller, said on the replies: a buffered tool attempt only if accepted, a buffered corrected
      answer only if it is prose without native call, wrapper or refusal, and a first answer that needed correction only
      as the fallback after one. */
  lemma {:induction false} ReleasedRepliesAreSound(sc: Script, stream: nat, correctives: nat, outcomes: seq<Outcome>)
    requires Releases(sc, stream, correctives, outcomes)
    ensures correctives <= 1 && stream <= correctives
    ensures sc.toolGuard ==>
      var c := if stream == 0 then sc.first else sc.second;
      && c != CaptureFailed && (c.Buffered? ==> c.accepted)
      && outcomes == [if c == Bypass then BufferBypass else if stream == 0 then FirstAttempt else Corrected]
    ensures !sc.toolGuard && sc.resultGuard && stream == 1 ==>
      var c := sc.secondResult;
      && (c == ResultBypass ==> outcomes == [BufferBypass])
      && (c != ResultBypass ==>
            && outcomes == [Corrected] && c.ResultBuffered? && !c.native && !c.refusal && TrimSpace(c.text) != ""
            && Observation(c.text, sc.tools, sc.decode) == Done(WrapperNone))
    ensures !sc.toolGuard && sc.resultGuard && stream == 0 ==>
      var c := sc.firstResult;
      var due := c.ResultBuffered? && !c.native && c.refusal
                 && Observation(c.text, sc.tools, sc.decode) == Done(WrapperNone);
      && c != ResultFailed && correctives == (if due then 1 else 0)
      && outcomes == [if due then FallbackFirstAttempt else if c == ResultBypass then BufferBypass else FirstAttempt]
    ensures !sc.toolGuard && !sc.resultGuard ==> outcomes == []
  {
    hide Observation, TrimSpace;
  }

  method Run(sc: Script) returns (r: RunResult, log: seq<Event>)
    ensures r.Handle? <==> Serves(sc)
    ensures r == RunPanicked <==> Panics(sc)
    ensures RunContract(sc, r, TallyOf(log))
    ensures r == RunFailed ==> TallyOf(log).cancels == (if OpensSession(sc) then 1 else 0)
    ensures r != RunFailed ==> !sc.requestNil && !FirstPreHookFails(sc)
    ensures r == ShortCircuit <==> Answered(sc)
  {
    hide Count, TallyOf, FirstFailing, FirstPanics, SecondPanics, FirstRejected;
    EmptyLog();
    log := [];
    if sc.requestNil {
      return RunFailed, log;
    }
    var ended;
    ended, r, log := PreHooks(sc);
    if ended {
      return;
    }
    if sc.session.None? {
      log := Cleanup(sc, log);
      return RunFailed, log;
    }
    r, log := RunSession(sc, sc.session.value, log);
  }

  lemma {:induction false} EmptyLog()
    ensures TallyOf([]) == NoTally()
  {
  }

  /** The PreHook loop: a failure after at least one success still lets PostHooks clean up. */
  method PreHooks(sc: Script) returns (ended: bool, r: RunResult, log: seq<Event>)
    requires !sc.requestNil
    ensures !ended ==> Continues(sc.pre, |sc.pre|) && TallyOf(log) == NoTally()
    ensures ended ==> !Continues(sc.pre, |sc.pre|) && RunContract(sc, r, TallyOf(log)) && TallyOf(log).cancels == 0
    ensures ended && r != ShortCircuit ==> r == RunFailed
    ensures ended && r == ShortCircuit ==> !FirstPreHookFails(sc)
    ensures ended && r == ShortCircuit <==>
            exists k :: 0 <= k < |sc.pre| && Continues(sc.pre, k) && sc.pre[k] == PreRespond
  {
    hide TallyOf;
    EmptyLog();
    ended, r, log := false, RunFailed, [];
    var completed := 0;
    for i := 0 to |sc.pre|
      invariant Continues(sc.pre, i) && TallyOf(log) == NoTally() && completed == i && !ended
    {
      log := Emit(log, PreCalled(i));
      if sc.pre[i] == PreError || sc.pre[i] == PrePanic {
        if completed > 0 {
          log := Cleanup(sc, log);
        }
        return true, RunFailed, log;
      }
      if sc.pre[i] == PreRespond {
        return true, ShortCircuit, log;
      }
      completed := completed + 1;
    }
  }

  /** runErrCleanup: PostHooks with a nil response, their errors only logged. */
  method Cleanup(sc: Script, log: seq<Event>) returns (log': seq<Event>)
    ensures TallyOf(log') == TallyOf(log).(posts := TallyOf(log).posts + Upto(|sc.post|))
  {
    var err;
    err, log' := RunPostHooks(sc.post, log);
  }

  /** Everything after NewSession succeeded. */
  method RunSession(sc: Script, sid: string, log0: seq<Event>) returns (r: RunResult, log: seq<Event>)
    requires OpensSession(sc) && sc.session == Some(sid) && TallyOf(log0) == NoTally()
    ensures RunContract(sc, r, TallyOf(log)) && r != ShortCircuit
    ensures (r.Handle? <==> Serves(sc)) && (r == RunPanicked <==> Panics(sc))
    ensures r == RunFailed ==> TallyOf(log).cancels == 1
  {
    hide TallyOf, RunContract;
    log := log0;
    if sc.explicitModel {
      log := Emit(log, SetModel(sid));
      if !sc.setModelOk {
        r, log := Fail(sc, sid, false, false, true, 0, log);
        return;
      }
    }
    var held := false;
    if Guarded(sc) && sc.hasSequence {
      if !sc.beginOk {
        r, log := Fail(sc, sid, false, false, true, 0, log);
        return;
      }
      log := Emit(log, SequenceBegun(sid));
      held := true;
    }
    r, log := RunPrompt(sc, sid, held, log);
  }

  /** The first prompt, the watchdog and the guarded part. */
  method RunPrompt(sc: Script, sid: string, held: bool, log0: seq<Event>) returns (r: RunResult, log: seq<Event>)
    requires OpensSession(sc) && sc.session == Some(sid) && (sc.explicitModel ==> sc.setModelOk)
    requires held == (Guarded(sc) && sc.hasSequence) && (held ==> sc.beginOk)
    requires TallyOf(log0).sids <= {sid}
    requires TallyOf(log0) == NoTally().(sids := TallyOf(log0).sids, begun := if held then 1 else 0)
    ensures RunContract(sc, r, TallyOf(log)) && r != ShortCircuit
    ensures (r.Handle? <==> Serves(sc)) && (r == RunPanicked <==> Panics(sc))
    ensures r == RunFailed ==> TallyOf(log).cancels == 1
  {
    hide TallyOf, RunContract;
    log := Emit(log0, Prompted(sid, false));
    if !sc.promptOk {
      r, log := Fail(sc, sid, held, false, Guarded(sc), 0, log);
      return;
    }
    log := Emit(log, WatchdogArmed);
    if sc.toolGuard {
      r, log := RecoverToolProtocol(sc, sid, held, log);
    } else if sc.resultGuard {
      r, log := RecoverToolResultProtocol(sc, sid, held, log);
    } else {
      r, log := Succeed(sc, sid, held, 0, None, 0, log);
    }
  }

  /** Where a recovery starts: one prompt sent on the session, the watchdog armed. */
  ghost predicate AtRecovery(sc: Script, sid: string, held: bool, t: Tally) {
    && OpensSession(sc) && sc.session == Some(sid) && Guarded(sc)
    && (sc.explicitModel ==> sc.setModelOk) && sc.promptOk
    && held == sc.hasSequence && (held ==> sc.beginOk)
    && t == Tally([], t.sids, if held then 1 else 0, 0, 1, 0, 1, 0, 0, [], 0) && t.sids <= {sid}
  }

  /** The failure path shared by everything after NewSession: stop the watchdog if it is armed, release
      the hold if there is one, cancel, clean up, and report. */
  method Fail(sc: Script, sid: string, held: bool, armed: bool, report: bool, attempts: nat, log0: seq<Event>)
    returns (r: RunResult, log: seq<Event>)
    requires OpensSession(sc) && sc.session == Some(sid)
    requires report == (Guarded(sc) || (sc.explicitModel && !sc.setModelOk)) && (attempts > 0 ==> report)
    requires attempts == (if armed && FirstRejected(sc) && !sc.ctxDoneAfterFirst then 1 else 0)
    requires
      var t := TallyOf(log0);
      && t.posts == [] && t.sids <= {sid} && t.begun == (if held then 1 else 0) && t.finished == 0
      && t.prompts <= 2 && t.correctives == attempts <= 1 && t.armed == (if armed then 1 else 0) && t.stopped == 0
      && t.cancels == 0 && t.outcomes == [] && t.attempts == 0
    ensures r == RunFailed && RunContract(sc, r, TallyOf(log)) && TallyOf(log).cancels == 1
  {
    hide TallyOf, FirstFailing;
    assert [] + Upto(|sc.post|) == Upto(|sc.post|);
    log := log0;
    if armed {
      log := Emit(log, WatchdogStopped);
    }
    if held {
      log := Emit(log, SequenceFinished);
    }
    log := Emit(log, Cancelled(sid));
    log := Cleanup(sc, log);
    if report {
      log := Emit(log, Protocol(Failed, attempts));
    }
    r := RunFailed;
  }

  /** A successful attempt: a fully buffered one releases the hold now, a live one when it ends. */
  method Succeed(
    sc: Script, sid: string, held: bool, stream: nat, outcome: Option<Outcome>, attempts: nat, log0: seq<Event>)
    returns (r: RunResult, log: seq<Event>)
    requires OpensSession(sc) && sc.session == Some(sid) && held == (Guarded(sc) && sc.hasSequence)
    requires Releases(sc, stream, attempts, if outcome.Some? then [outcome.value] else [])
    requires attempts == (if FirstRejected(sc) && !sc.ctxDoneAfterFirst then 1 else 0)
    requires
      var t := TallyOf(log0);
      && t.posts == [] && t.sids <= {sid} && t.begun == (if held then 1 else 0) && t.finished == 0
      && t.prompts == 1 + t.correctives && t.correctives == attempts <= 1 && t.armed == 1 && t.stopped == 0
      && t.cancels == 0 && t.outcomes == [] && t.attempts == 0
    ensures r.Handle? && RunContract(sc, r, TallyOf(log))
  {
    hide TallyOf;
    log := log0;
    if held && !Live(sc, stream) {
      log := Emit(log, SequenceFinished);
    }
    if outcome.Some? {
      log := Emit(log, Protocol(outcome.value, attempts));
    }
    r := Handle(sid, held && Live(sc, stream), stream);
  }

  /** A panic on a reply: nothing runs any more. */
  method Unwind(sc: Script, sid: string, held: bool, log0: seq<Event>) returns (r: RunResult, log: seq<Event>)
    requires OpensSession(sc) && sc.session == Some(sid) && Guarded(sc) && held == sc.hasSequence
    requires
      var t := TallyOf(log0);
      && t.posts == [] && t.sids <= {sid} && t.begun == (if held then 1 else 0) && t.finished == 0
      && t.prompts == 1 + t.correctives && t.armed == 1 && t.stopped == 0
      && t.correctives == (if FirstRejected(sc) && !sc.ctxDoneAfterFirst then 1 else 0)
      && t.cancels == 0 && t.outcomes == [] && t.attempts == 0
    ensures r == RunPanicked && log == log0 && RunContract(sc, r, TallyOf(log))
  {
    return RunPanicked, log0;
  }

  /** The read-only observer on a reply. */
  method Observe(sc: Script, text: string) returns (panicked: bool, noWrapper: bool)
    ensures panicked == ObserverPanics(sc, text) && noWrapper == NoWrapper(sc, text)
  {
    hide Observation, SharedNewline;
    ObserverPanicsExactly(text, sc.tools, sc.decode);
    var seen := ObserveToolCallWrappers(text, sc.tools, sc.decode);
    panicked, noWrapper := seen.Panicked?, seen == Done(WrapperNone);
  }

  /** The extractor on a reply, as part of classifying it. */
  method Extract(sc: Script, text: string) returns (panicked: bool)
    ensures panicked == ExtractorPanics(sc, text)
  {
    hide Extraction, SharedNewline;
    ExtractorPanicsExactly(text, sc.tools, sc.decode, sc.clock);
    var calls := ExtractToolCallWrappers(text, sc.tools, sc.decode, sc.clock);
    panicked := calls.Panicked?;
  }

  method RecoverToolProtocol(
    sc: Script, sid: string, held: bool, log0: seq<Event>)
    returns (r: RunResult, log: seq<Event>)
    requires AtRecovery(sc, sid, held, TallyOf(log0)) && sc.toolGuard
    ensures RunContract(sc, r, TallyOf(log)) && r != ShortCircuit
    ensures (r.Handle? <==> Serves(sc)) && (r == RunPanicked <==> Panics(sc))
    ensures r == RunFailed ==> TallyOf(log).cancels == 1
  {
    hide TallyOf, RunContract, ExtractorPanics;
    match sc.first {
      case CaptureFailed =>
        r, log := Fail(sc, sid, held, true, true, 0, log0);
        return;
      case Bypass =>
        r, log := Succeed(sc, sid, held, 0, Some(BufferBypass), 0, log0);
        return;
      case EarlyStop(text) =>
        var panicked, _ := Observe(sc, text);
        if panicked {
          r, log := Unwind(sc, sid, held, log0);
        } else {
          r, log := Succeed(sc, sid, held, 0, Some(FirstAttempt), 0, log0);
        }
        return;
      case Buffered(text, accepted) =>
        var panicked, _ := Observe(sc, text);
        if !panicked {
          panicked := Extract(sc, text);
        }
        if panicked {
          r, log := Unwind(sc, sid, held, log0);
          return;
        }
        if accepted {
          r, log := Succeed(sc, sid, held, 0, Some(FirstAttempt), 0, log0);
          return;
        }
    }
    if sc.ctxDoneAfterFirst {
      r, log := Fail(sc, sid, held, true, true, 0, log0);
      return;
    }
    r, log := CorrectToolProtocol(sc, sid, held, log0);
  }

  /** The one corrective prompt of the tool protocol. */
  method CorrectToolProtocol(sc: Script, sid: string, held: bool, log0: seq<Event>)
    returns (r: RunResult, log: seq<Event>)
    requires AtRecovery(sc, sid, held, TallyOf(log0)) && sc.toolGuard && FirstRejected(sc) && !sc.ctxDoneAfterFirst
    ensures RunContract(sc, r, TallyOf(log)) && r != ShortCircuit
    ensures (r.Handle? <==> Serves(sc)) && (r == RunPanicked <==> Panics(sc))
    ensures r == RunFailed ==> TallyOf(log).cancels == 1
  {
    hide TallyOf, RunContract, ExtractorPanics, FirstPanics;
    log := Emit(log0, Prompted(sid, true));
    if !sc.correctivePromptOk {
      r, log := Fail(sc, sid, held, true, true, 1, log);
      return;
    }
    match sc.second {
      case CaptureFailed =>
        r, log := Fail(sc, sid, held, true, true, 1, log);
      case Bypass =>
        r, log := Succeed(sc, sid, held, 1, Some(BufferBypass), 1, log);
      case EarlyStop(_) =>
        r, log := Succeed(sc, sid, held, 1, Some(Corrected), 1, log);
      case Buffered(text, accepted) =>
        var panicked := Extract(sc, text);
        if panicked {
          r, log := Unwind(sc, sid, held, log);
        } else if accepted {
          r, log := Succeed(sc, sid, held, 1, Some(Corrected), 1, log);
        } else {
          r, log := Fail(sc, sid, held, true, true, 1, log);
        }
    }
  }

  /** As above, except that an unusable correction falls back to the buffered first attempt. */
  method RecoverToolResultProtocol(
    sc: Script, sid: string, held: bool, log0: seq<Event>)
    returns (r: RunResult, log: seq<Event>)
    requires AtRecovery(sc, sid, held, TallyOf(log0)) && !sc.toolGuard
    ensures RunContract(sc, r, TallyOf(log)) && r != ShortCircuit
    ensures (r.Handle? <==> Serves(sc)) && (r == RunPanicked <==> Panics(sc))
    ensures r == RunFailed ==> TallyOf(log).cancels == 1
  {
    hide TallyOf, RunContract, ObserverPanics, NoWrapper, TrimSpace;
    match sc.firstResult {
      case ResultFailed =>
        r, log := Fail(sc, sid, held, true, true, 0, log0);
        return;
      case ResultBypass =>
        r, log := Succeed(sc, sid, held, 0, Some(BufferBypass), 0, log0);
        return;
      case ResultBuffered(text, native, refusal) =>
        var panicked, noWrapper := Observe(sc, text);
        if panicked {
          r, log := Unwind(sc, sid, held, log0);
          return;
        }
        if native || !noWrapper || !refusal {
          r, log := Succeed(sc, sid, held, 0, Some(FirstAttempt), 0, log0);
          return;
        }
    }
    if sc.ctxDoneAfterFirst {
      r, log := Fail(sc, sid, held, true, true, 0, log0);
      return;
    }
    r, log := CorrectToolResultProtocol(sc, sid, held, log0);
  }

  /** The one corrective prompt after a tool result. */
  method CorrectToolResultProtocol(sc: Script, sid: string, held: bool, log0: seq<Event>)
    returns (r: RunResult, log: seq<Event>)
    requires AtRecovery(sc, sid, held, TallyOf(log0)) && !sc.toolGuard && FirstRejected(sc) && !sc.ctxDoneAfterFirst
    ensures RunContract(sc, r, TallyOf(log)) && r != ShortCircuit
    ensures (r.Handle? <==> Serves(sc)) && (r == RunPanicked <==> Panics(sc))
    ensures r == RunFailed ==> TallyOf(log).cancels == 1
  {
    hide TallyOf, RunContract, ObserverPanics, NoWrapper, TrimSpace, FirstPanics;
    log := Emit(log0, Prompted(sid, true));
    if !sc.correctivePromptOk {
      r, log := Fail(sc, sid, held, true, true, 1, log);
      return;
    }
    match sc.secondResult {
      case ResultFailed =>
        r, log := Fail(sc, sid, held, true, true, 1, log);
      case ResultBypass =>
        r, log := Succeed(sc, sid, held, 1, Some(BufferBypass), 1, log);
      case ResultBuffered(text, native, refusal) =>
        var panicked, prose := false, false;
        if !native && TrimSpace(text) != "" && !refusal {
          panicked, prose := Observe(sc, text);
        }
        if panicked {
          r, log := Unwind(sc, sid, held, log);
        } else if prose {
          r, log := Succeed(sc, sid, held, 1, Some(Corrected), 1, log);
        } else if sc.ctxDoneAfterSecond {
          r, log := Fail(sc, sid, held, true, true, 1, log);
        } else {
          r, log := Succeed(sc, sid, held, 0, Some(FallbackFirstAttempt), 1, log);
        }
    }
  }

  /** Such a reply exists: a fence around nothing, which no JSON decoder accepts. The run ends without a
      handle, an error, a cancel, a release, a PostHook or an event. */
  lemma {:induction false} EmptyFencePanics(sc: Script)
    requires Guarded(sc) && PromptSent(sc) && sc.decode("```json\n```").None?
    requires
      var reply := "```json\n```";
      if sc.toolGuard then
        (sc.first.EarlyStop? && sc.first.text == reply) || (sc.first.Buffered? && sc.first.text == reply)
      else sc.firstResult.ResultBuffered? && sc.firstResult.text == reply
    ensures Panics(sc)
  {
    hide SharedNewline;
    SharedNewlinePanics();
    PanicsExactlyOnSharedNewline("```json\n```");
  }

  // ---------------------------------------------------------------- Collect

  datatype CollectResult = CollectFailed | CollectPanicked | Collected

  /** On every path each PostHook runs exactly once and in order, except not at all for a nil request, when
      the very first PreHook fails, or when a reply makes the engine panic; a handle that cannot be
      collected is cancelled once. */
  method Collect(sc: Script) returns (c: CollectResult, log: seq<Event>)
    ensures c == CollectPanicked <==> Panics(sc)
    ensures TallyOf(log).posts
         == if sc.requestNil || FirstPreHookFails(sc) || Panics(sc) then [] else Upto(|sc.post|)
    ensures c == Collected <==>
            FirstFailing(sc.post).None? && (Answered(sc) || (Serves(sc) && sc.range == RangeOk && sc.resultOk))
    ensures c == Collected ==> TallyOf(log).cancels == 0 && TallyOf(log).stopped == TallyOf(log).armed
    ensures TallyOf(log).cancels <= 1 && TallyOf(log).sids <= (if sc.session.Some? then {sc.session.value} else {})
  {
    hide TallyOf, FirstFailing, Serves, Answered, Panics;
    var run;
    run, log := Run(sc);
    if run.RunPanicked? {
      return CollectPanicked, log;
    }
    if run.RunFailed? {
      return CollectFailed, log;
    }
    c, log := CollectFromRun(sc, run, log);
  }

  method CollectFromRun(sc: Script, run: RunResult, log0: seq<Event>) returns (c: CollectResult, log: seq<Event>)
    requires run != RunFailed && run != RunPanicked
    requires
      var t := TallyOf(log0);
      && t.posts == [] && t.cancels == 0 && t.stopped == 0
      && (run == ShortCircuit ==> t.armed == 0) && (run.Handle? ==> t.armed == 1)
      && (run.Handle? ==> sc.session == Some(run.sid))
      && t.sids <= (if sc.session.Some? then {sc.session.value} else {})
    ensures TallyOf(log).posts == Upto(|sc.post|)
    ensures TallyOf(log).cancels == (if run.Handle? && (sc.range != RangeOk || !sc.resultOk) then 1 else 0)
    ensures TallyOf(log).sids <= (if sc.session.Some? then {sc.session.value} else {})
    ensures TallyOf(log).armed == TallyOf(log0).armed
    ensures c == Collected ==> FirstFailing(sc.post).None? && TallyOf(log).stopped == TallyOf(log).armed
    ensures c != CollectPanicked && (c == Collected <==> FirstFailing(sc.post).None? && TallyOf(log).cancels == 0)
  {
    hide TallyOf, FirstFailing;
    assert [] + Upto(|sc.post|) == Upto(|sc.post|);
    log := log0;
    if run.Handle? {
      if sc.range != RangeOk {
        log := Emit(log, Cancelled(run.sid));
        log := Cleanup(sc, log);
        return CollectFailed, log;
      }
      if !sc.resultOk {
        log := Emit(log, Cancelled(run.sid));
        log := Cleanup(sc, log);
        return CollectFailed, log;
      }
      log := Emit(log, WatchdogStopped);
    }
    var hookErr;
    hookErr, log := RunPostHooks(sc.post, log);
    c := if hookErr.Some? then CollectFailed else Collected;
  }
}
