/** The client's active-stream slot (internal/acp/client.go): Prompt publishes a stream, its finaliser
    gives the slot back, and the read loop routes session updates to whatever stream it finds there. */
module PromptSlot {
  import opened Options

  datatype Phase =
    | Sending    // published, request not yet accepted by the writer
    | Awaiting   // the finaliser goroutine waits for the response
    | Clearing   // the finaliser has passed its slot check
    | Ended      // the finaliser has closed the stream
    | Failed     // the send failed: no finaliser, and nothing closes the stream

  datatype Delivered = Delivered(session: string, chunk: string)

  /** A stream with the session it was opened for and what was pushed to it. */
  datatype Prompt = Prompt(session: string, phase: Phase, got: seq<Delivered>)

  /** An update the read loop has matched to a stream but not pushed yet. */
  datatype InFlight = InFlight(stream: nat, update: Delivered)

  datatype State = State(prompts: seq<Prompt>, active: Option<nat>, reader: Option<InFlight>, tornDown: bool)

  datatype Step =
    | Publish(session: string)
    | SendOk(stream: nat)
    | SendFail(stream: nat)
    | FinaliserClear(stream: nat)
    | FinaliserClose(stream: nat)
    | MatchUpdate(update: Delivered)
    | PushUpdate(accepted: bool)
    | TearDown

  predicate InPhase(s: State, n: nat, phase: Phase) {
    n < |s.prompts| && s.prompts[n].phase == phase
  }

  predicate SomeSending(s: State) {
    exists n :: 0 <= n < |s.prompts| && s.prompts[n].phase == Sending
  }

  /** With `serial` set, a Prompt call begins only after the previous one returned. */
  predicate Enabled(s: State, step: Step, serial: bool) {
    match step
    case Publish(_) => serial ==> !SomeSending(s)
    case SendOk(n) => InPhase(s, n, Sending)
    case SendFail(n) => InPhase(s, n, Sending)
    case FinaliserClear(n) => InPhase(s, n, Awaiting)
    case FinaliserClose(n) => InPhase(s, n, Clearing)
    case MatchUpdate(_) => s.reader.None? && !s.tornDown
    case PushUpdate(accepted) =>
      && s.reader.Some? && s.reader.value.stream < |s.prompts|
      && (accepted ==> s.prompts[s.reader.value.stream].phase != Ended)
    case TearDown => s.reader.None? && !s.tornDown
  }

  function SetPhase(s: State, n: nat, phase: Phase): State
    requires n < |s.prompts|
  {
    s.(prompts := s.prompts[n := s.prompts[n].(phase := phase)])
  }

  /** The guard against updates that belong to another session. */
  predicate SessionsMatch(stream: string, update: string) {
    stream == "" || update == "" || update == stream
  }

  function Next(s: State, step: Step, serial: bool): State
    requires Enabled(s, step, serial)
  {
    match step
    case Publish(session) =>
      s.(prompts := s.prompts + [Prompt(session, Sending, [])], active := Some(|s.prompts|))
    case SendOk(n) => SetPhase(s, n, Awaiting)
    case SendFail(n) => SetPhase(s, n, Failed).(active := None)
    case FinaliserClear(n) =>
      var s' := SetPhase(s, n, Clearing);
      if s.active == Some(n) then s'.(active := None) else s'
    case FinaliserClose(n) => SetPhase(s, n, Ended)
    case MatchUpdate(update) =>
      if s.active.None? || s.active.value >= |s.prompts| then s
      else if !SessionsMatch(s.prompts[s.active.value].session, update.session) then s
      else s.(reader := Some(InFlight(s.active.value, update)))
    case PushUpdate(accepted) =>
      var InFlight(n, update) := s.reader.value;
      var s' := s.(reader := None);
      if accepted then s'.(prompts := s.prompts[n := s.prompts[n].(got := s.prompts[n].got + [update])]) else s'
    case TearDown => s.(active := None, tornDown := true)
  }

  function Init(): State {
    State([], None, None, false)
  }

  ghost predicate Run(s: State, steps: seq<Step>, s': State, serial: bool)
    decreases |steps|
  {
    if steps == [] then s == s'
    else Enabled(s, steps[0], serial) && Run(Next(s, steps[0], serial), steps[1..], s', serial)
  }

  /** Updates only ever reach a stream of their own session. */
  ghost predicate Clean(s: State) {
    && (s.active.Some? ==> s.active.value < |s.prompts|)
    && (s.reader.Some? ==>
          var f := s.reader.value;
          f.stream < |s.prompts| && SessionsMatch(s.prompts[f.stream].session, f.update.session))
    && (forall n, k :: 0 <= n < |s.prompts| && 0 <= k < |s.prompts[n].got| ==>
          SessionsMatch(s.prompts[n].session, s.prompts[n].got[k].session))
  }

  /** Only the newest prompt can own the slot, and it owns it until its own call or finaliser gives it up. */
  ghost predicate NewestOwns(s: State) {
    && (s.active.Some? ==> s.active.value == |s.prompts| - 1)
    && (forall n :: 0 <= n < |s.prompts| - 1 ==> s.prompts[n].phase != Sending)
    && (s.prompts != [] && !s.tornDown ==>
          var newest := |s.prompts| - 1;
          s.active == Some(newest) <==> s.prompts[newest].phase == Sending || s.prompts[newest].phase == Awaiting)
  }

  lemma {:induction false} CleanStep(s: State, step: Step, serial: bool)
    requires Clean(s) && Enabled(s, step, serial)
    ensures Clean(Next(s, step, serial))
  {
  }

  lemma {:induction false} CleanRun(s: State, steps: seq<Step>, s': State, serial: bool)
    requires Clean(s) && Run(s, steps, s', serial)
    ensures Clean(s')
    decreases |steps|
  {
    hide Next, Enabled, Clean;
    if steps == [] {
    } else {
      CleanStep(s, steps[0], serial);
      CleanRun(Next(s, steps[0], serial), steps[1..], s', serial);
    }
  }

  lemma {:induction false} NewestStep(s: State, step: Step)
    requires NewestOwns(s) && Enabled(s, step, true) && Clean(s)
    ensures NewestOwns(Next(s, step, true))
  {
  }

  lemma {:induction false} NewestRun(s: State, steps: seq<Step>, s': State)
    requires NewestOwns(s) && Clean(s) && Run(s, steps, s', true)
    ensures NewestOwns(s')
    decreases |steps|
  {
    hide Next, Enabled, NewestOwns, Clean;
    if steps == [] {
    } else {
      NewestStep(s, steps[0]);
      CleanStep(s, steps[0], true);
      NewestRun(Next(s, steps[0], true), steps[1..], s');
    }
  }

  /** Every chunk a stream ever receives came from an update of its session, or one of the two ids
      was empty; this needs no assumption on how Prompt calls overlap. */
  lemma {:induction false} ChunksComeFromTheirSession(steps: seq<Step>, s: State, serial: bool, n: nat, k: nat)
    requires Run(Init(), steps, s, serial) && n < |s.prompts| && k < |s.prompts[n].got|
    ensures
      var mine, its := s.prompts[n].session, s.prompts[n].got[k].session;
      mine == "" || its == "" || its == mine
  {
    CleanRun(Init(), steps, s, serial);
  }

  /** The other half: an update found while stream `n` is active is on its way to that stream if and only if the
      ids are equal or one is empty, and is otherwise dropped; its push, if accepted, appends it there and nowhere
      else. Whatever the reader holds can be pushed, and is accepted unless the stream has been closed. */
  lemma {:induction false} UpdatesReachTheirSession(
    steps: seq<Step>, s: State, serial: bool, n: nat, update: Delivered)
    requires Run(Init(), steps, s, serial) && s.active == Some(n) && Enabled(s, MatchUpdate(update), serial)
    ensures n < |s.prompts|
    ensures
      var s1 := Next(s, MatchUpdate(update), serial);
      var mine := s.prompts[n].session;
      if mine == "" || update.session == "" || update.session == mine then
        && s1 == s.(reader := Some(InFlight(n, update)))
        && (Enabled(s1, PushUpdate(true), serial) <==> s.prompts[n].phase != Ended)
        && (Enabled(s1, PushUpdate(true), serial) ==>
              Next(s1, PushUpdate(true), serial)
              == s.(prompts := s.prompts[n := s.prompts[n].(got := s.prompts[n].got + [update])]))
        && Next(s1, PushUpdate(false), serial) == s
      else s1 == s
  {
    CleanRun(Init(), steps, s, serial);
  }

  /** With Prompt calls one after another, the newest prompt holds the slot from publication until its
      own send fails or its own finaliser runs: no older finaliser ever clears it. */
  lemma {:induction false} NewestPromptKeepsItsSlot(steps: seq<Step>, s: State)
    requires Run(Init(), steps, s, true) && s.prompts != [] && !s.tornDown
    ensures
      var newest := |s.prompts| - 1;
      s.active == Some(newest) <==> s.prompts[newest].phase == Sending || s.prompts[newest].phase == Awaiting
  {
    NewestRun(Init(), steps, s);
  }

  /** The send-failure path clears the slot whoever owns it: with overlapping calls an older prompt
      takes the slot away from a newer one, which is why the calls must not overlap. */
  lemma {:induction false} OverlapLosesTheSlot()
    ensures exists steps, s ::
              && Run(Init(), steps, s, false)
              && |s.prompts| == 2 && s.prompts[1].phase == Awaiting && !s.tornDown && s.active == None
  {
    var steps := [Publish("a"), Publish("b"), SendOk(1), SendFail(0)];
    var s1 := Next(Init(), steps[0], false);
    var s2 := Next(s1, steps[1], false);
    var s3 := Next(s2, steps[2], false);
    var s4 := Next(s3, steps[3], false);
    assert Run(s4, steps[1..][1..][1..][1..], s4, false);
    assert Run(s3, steps[1..][1..][1..], s4, false);
    assert Run(s2, steps[1..][1..], s4, false);
    assert Run(s1, steps[1..], s4, false);
    assert Run(Init(), steps, s4, false);
  }

  lemma {:induction false} OnlyNewestActive(s: State, steps: seq<Step>, s': State)
    requires Run(s, steps, s', false) && (s.active.Some? ==> s.active.value == |s.prompts| - 1)
    ensures s'.active.Some? ==> s'.active.value == |s'.prompts| - 1
    decreases |steps|
  {
    if steps == [] {
    } else {
      OnlyNewestActive(Next(s, steps[0], false), steps[1..], s');
    }
  }

  /** Exactly when the failing call takes the slot from another prompt: when a newer one was published
      while it was sending and still holds the slot. */
  lemma {:induction false} SendFailureTakesNewerSlot(steps: seq<Step>, s: State, n: nat)
    requires Run(Init(), steps, s, false) && Enabled(s, SendFail(n), false)
    ensures
      var s' := Next(s, SendFail(n), false);
      (exists m :: m != n && s.active == Some(m) && s'.active != Some(m)) <==> s.active.Some? && n < |s.prompts| - 1
  {
    OnlyNewestActive(Init(), steps, s);
    if s.active.Some? && n < |s.prompts| - 1 {
      assert s.active == Some(|s.prompts| - 1) && |s.prompts| - 1 != n;
    }
  }

  /** No later prompt is published and the client is not torn down. */
  predicate Undisturbed(steps: seq<Step>) {
    forall k :: 0 <= k < |steps| ==> !steps[k].Publish? && !steps[k].TearDown?
  }

  predicate OnlyOwnFailure(steps: seq<Step>, n: nat) {
    forall k :: 0 <= k < |steps| && steps[k].SendFail? ==> steps[k].stream == n
  }

  predicate Owning(s: State, n: nat) {
    InPhase(s, n, Sending) || InPhase(s, n, Awaiting)
  }

  /** Once the slot is not the newest prompt's it stays so; a slot that is its own changes hands only by
      its own failure or finaliser or by another prompt's failure. */
  lemma {:induction false} SlotStep(s: State, step: Step, n: nat)
    requires n + 1 == |s.prompts| && Enabled(s, step, false) && !step.Publish? && !step.TearDown?
    requires s.active == Some(n) ==> Owning(s, n)
    ensures
      var s' := Next(s, step, false);
      && n + 1 == |s'.prompts| && (s'.active == Some(n) ==> s.active == Some(n) && Owning(s', n))
      && (Owning(s', n) ==> Owning(s, n))
      && (s.active == Some(n) ==>
            (s'.active == Some(n) <==> Owning(s', n) && (step.SendFail? ==> step.stream == n)))
  {
  }

  lemma {:induction false} SlotRun(s: State, steps: seq<Step>, s': State, n: nat)
    requires n + 1 == |s.prompts| && Run(s, steps, s', false) && Undisturbed(steps)
    requires s.active == Some(n) ==> Owning(s, n)
    ensures Owning(s', n) ==> Owning(s, n)
    ensures s.active != Some(n) ==> s'.active != Some(n)
    ensures s.active == Some(n) ==> (s'.active == Some(n) <==> Owning(s', n) && OnlyOwnFailure(steps, n))
    decreases |steps|
  {
    hide Next, Enabled;
    if steps == [] {
    } else {
      SlotStep(s, steps[0], n);
      var t := Next(s, steps[0], false);
      assert Undisturbed(steps[1..]);
      SlotRun(t, steps[1..], s', n);
      assert OnlyOwnFailure(steps, n) <==>
          (steps[0].SendFail? ==> steps[0].stream == n) && OnlyOwnFailure(steps[1..], n) by {
        assert forall k :: 0 < k < |steps| ==> steps[k] == steps[1..][k - 1];
        assert forall k :: 0 <= k < |steps| - 1 ==> steps[1..][k] == steps[k + 1];
      }
    }
  }

  /** Exactly what takes the slot from the newest prompt, however calls overlap: over every run after it was
      published, without a later publication or a teardown, it holds the slot if and only if it is sending
      or awaiting and no other prompt's send has failed since. */
  lemma {:induction false} NewestHoldsSlotExactly(
    before: seq<Step>, s: State, session: string, after: seq<Step>, s': State)
    requires Run(Init(), before, s, false) && Undisturbed(after)
    requires Run(Next(s, Publish(session), false), after, s', false)
    ensures
      var n := |s.prompts|;
      s'.active == Some(n) <==> Owning(s', n) && OnlyOwnFailure(after, n)
  {
    SlotRun(Next(s, Publish(session), false), after, s', |s.prompts|);
  }
}
