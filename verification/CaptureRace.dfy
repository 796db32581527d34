/** The capture gate under racing callers (internal/capture/controller.go): testing the gate and writing
    the ring are two steps of Record, and clearing the ring and opening the gate two steps of Enable. */
module CaptureRace {
  import opened Options
  import opened CaptureRing

  /** `caller` numbers the Record calls. Enable is ClearRing, StoreGate(true); Disable is
      StoreGate(false); Clear is ClearRing. */
  datatype Step =
    | TestGate(caller: nat, call: Call)
    | WriteRing(caller: nat)
    | ClearRing
    | StoreGate(on: bool)

  /** A call with the number of the step that tested the gate for it. */
  datatype Tested = Tested(call: Call, at: nat)

  datatype Race = Race(enabled: bool, passed: map<nat, Tested>, ring: seq<Tested>, clock: nat)

  /** A caller that found the gate closed has returned: its write does not happen. */
  function Next(s: Race, step: Step): Race {
    var t := s.(clock := s.clock + 1);
    match step
    case TestGate(c, call) => if s.enabled then t.(passed := s.passed[c := Tested(call, s.clock)]) else t
    case WriteRing(c) => if c in s.passed then t.(ring := s.ring + [s.passed[c]], passed := s.passed - {c}) else t
    case ClearRing => t.(ring := [])
    case StoreGate(on) => t.(enabled := on)
  }

  function After(initial: bool, steps: seq<Step>): Race {
    if steps == [] then Race(initial, map[], [], 0)
    else Next(After(initial, steps[..|steps| - 1]), steps[|steps| - 1])
  }

  /** Every Record call tests once and then writes at most once. */
  ghost predicate OwnNumbers(steps: seq<Step>) {
    forall i, j :: 0 <= i < j < |steps| ==>
      && !(steps[i].TestGate? && steps[j].TestGate? && steps[i].caller == steps[j].caller)
      && !(steps[i].WriteRing? && steps[j].WriteRing? && steps[i].caller == steps[j].caller)
      && !(steps[i].WriteRing? && steps[j].TestGate? && steps[i].caller == steps[j].caller)
  }

  // ---------------------------------------------------------------- what the ring should hold

  /** What the latest store before step `n` said. */
  predicate GateAt(initial: bool, steps: seq<Step>, n: nat)
    requires n <= |steps|
  {
    if n == 0 then initial
    else if steps[n - 1].StoreGate? then steps[n - 1].on
    else GateAt(initial, steps, n - 1)
  }

  /** The test by which call `c` passed the gate before step `n`, if it did. */
  function PassedTest(initial: bool, steps: seq<Step>, n: nat, c: nat): Option<Tested>
    requires n <= |steps|
  {
    if n == 0 then None
    else if steps[n - 1].TestGate? && steps[n - 1].caller == c && GateAt(initial, steps, n - 1) then
      Some(Tested(steps[n - 1].call, n - 1))
    else PassedTest(initial, steps, n - 1, c)
  }

  predicate ClearedFrom(steps: seq<Step>, n: nat) {
    exists k :: n <= k < |steps| && steps[k] == ClearRing
  }

  /** Step `j` writes a call that passed the gate, and no later step clears the ring. */
  predicate Survives(initial: bool, steps: seq<Step>, j: nat)
    requires j < |steps|
  {
    steps[j].WriteRing? && PassedTest(initial, steps, j, steps[j].caller).Some? && !ClearedFrom(steps, j + 1)
  }

  function Surviving(initial: bool, steps: seq<Step>, n: nat): seq<Tested>
    requires n <= |steps|
  {
    if n == 0 then []
    else if Survives(initial, steps, n - 1) then
      Surviving(initial, steps, n - 1) + [PassedTest(initial, steps, n - 1, steps[n - 1].caller).value]
    else Surviving(initial, steps, n - 1)
  }

  // ---------------------------------------------------------------- every interleaving

  lemma {:induction false} PastIsFixed(initial: bool, steps: seq<Step>, n: nat, c: nat)
    requires n < |steps|
    ensures GateAt(initial, steps, n) == GateAt(initial, steps[..|steps| - 1], n)
    ensures PassedTest(initial, steps, n, c) == PassedTest(initial, steps[..|steps| - 1], n, c)
  {
    if n == 0 {
    } else {
      PastIsFixed(initial, steps, n - 1, c);
    }
  }

  lemma {:induction false} ClearWipesAll(initial: bool, steps: seq<Step>, n: nat)
    requires steps != [] && n <= |steps| && steps[|steps| - 1] == ClearRing
    ensures Surviving(initial, steps, n) == []
  {
    if n == 0 {
    } else {
      ClearWipesAll(initial, steps, n - 1);
      assert n < |steps| ==> ClearedFrom(steps, n);
    }
  }

  lemma {:induction false} OtherStepsKeep(initial: bool, steps: seq<Step>, n: nat)
    requires steps != [] && n < |steps| && steps[|steps| - 1] != ClearRing
    ensures Surviving(initial, steps, n) == Surviving(initial, steps[..|steps| - 1], n)
  {
    if n == 0 {
    } else {
      hide PassedTest;
      var front := steps[..|steps| - 1];
      OtherStepsKeep(initial, steps, n - 1);
      if steps[n - 1].WriteRing? {
        PastIsFixed(initial, steps, n - 1, steps[n - 1].caller);
      }
      assert ClearedFrom(steps, n) <==> ClearedFrom(front, n) by {
        if k :| n <= k < |steps| && steps[k] == ClearRing {
          assert front[k] == ClearRing;
        }
        if k :| n <= k < |front| && front[k] == ClearRing {
          assert steps[k] == ClearRing;
        }
      }
    }
  }

  /** Call `c` has passed the gate and not written yet. */
  ghost predicate Waiting(initial: bool, steps: seq<Step>, c: nat) {
    PassedTest(initial, steps, |steps|, c).Some? && WriteRing(c) !in steps
  }

  ghost predicate Matches(initial: bool, steps: seq<Step>, s: Race) {
    && s.enabled == GateAt(initial, steps, |steps|) && s.clock == |steps|
    && s.ring == Surviving(initial, steps, |steps|)
    && (forall c :: c in s.passed <==> Waiting(initial, steps, c))
    && (forall c :: c in s.passed ==> Some(s.passed[c]) == PassedTest(initial, steps, |steps|, c))
  }

  /** Main result: after any interleaving the ring holds, in the order of their writes, exactly the calls
      that found the gate open and were written after the last time the ring was cleared. */
  lemma {:induction false} RingHoldsSurvivors(initial: bool, steps: seq<Step>)
    requires OwnNumbers(steps)
    ensures Matches(initial, steps, After(initial, steps))
  {
    if steps == [] {
    } else {
      hide Matches, After;
      var n := |steps| - 1;
      var front := steps[..n];
      RingHoldsSurvivors(initial, front);
      StepMatches(initial, steps, After(initial, front));
      AfterLast(initial, steps);
    }
  }

  lemma {:induction false} AfterLast(initial: bool, steps: seq<Step>)
    requires steps != []
    ensures After(initial, steps) == Next(After(initial, steps[..|steps| - 1]), steps[|steps| - 1])
  {
  }

  lemma {:induction false} StepMatches(initial: bool, steps: seq<Step>, s: Race)
    requires OwnNumbers(steps) && steps != [] && Matches(initial, steps[..|steps| - 1], s)
    ensures Matches(initial, steps, Next(s, steps[|steps| - 1]))
  {
    hide OwnNumbers;
    var n := |steps| - 1;
    var front, last := steps[..n], steps[n];
    PastIsFixed(initial, steps, n, 0);
    PassedStep(initial, steps, s);
    RingStep(initial, steps, s);
  }

  lemma {:induction false} RingStep(initial: bool, steps: seq<Step>, s: Race)
    requires OwnNumbers(steps) && steps != [] && Matches(initial, steps[..|steps| - 1], s)
    ensures Next(s, steps[|steps| - 1]).ring == Surviving(initial, steps, |steps|)
  {
    hide PassedTest, GateAt;
    var n := |steps| - 1;
    var front, last := steps[..n], steps[n];
    if last == ClearRing {
      ClearWipesAll(initial, steps, n + 1);
    } else {
      OtherStepsKeep(initial, steps, n);
      assert !ClearedFrom(steps, n + 1);
      if last.WriteRing? {
        PastIsFixed(initial, steps, n, last.caller);
        FirstUse(steps, last.caller);
        PastPassed(initial, steps, last.caller);
      }
    }
  }

  lemma {:induction false} FirstUse(steps: seq<Step>, c: nat)
    requires OwnNumbers(steps) && steps != []
    requires
      var last := steps[|steps| - 1];
      last == WriteRing(c) || (last.TestGate? && last.caller == c)
    ensures WriteRing(c) !in steps[..|steps| - 1]
  {
  }

  lemma {:induction false} PastPassed(initial: bool, steps: seq<Step>, c: nat)
    requires steps != []
    ensures
      var n := |steps| - 1;
      PassedTest(initial, steps, n, c) == PassedTest(initial, steps[..n], n, c)
  {
    PastIsFixed(initial, steps, |steps| - 1, c);
  }

  lemma {:induction false} PassedStep(initial: bool, steps: seq<Step>, s: Race)
    requires OwnNumbers(steps) && steps != [] && Matches(initial, steps[..|steps| - 1], s)
    ensures
      var s' := Next(s, steps[|steps| - 1]);
      && (forall c :: c in s'.passed <==> Waiting(initial, steps, c))
      && (forall c :: c in s'.passed ==> Some(s'.passed[c]) == PassedTest(initial, steps, |steps|, c))
  {
    hide Surviving, GateAt, OwnNumbers;
    var n := |steps| - 1;
    var front, last := steps[..n], steps[n];
    var s' := Next(s, last);
    assert steps == front + [last];
    forall c
      ensures c in s'.passed <==> Waiting(initial, steps, c)
      ensures c in s'.passed ==> Some(s'.passed[c]) == PassedTest(initial, steps, |steps|, c)
    {
      PastIsFixed(initial, steps, n, c);
      assert c in s.passed <==> Waiting(initial, front, c);
      if last.TestGate? && last.caller == c {
        FirstUse(steps, c);
      }
    }
  }

  // ---------------------------------------------------------------- stray calls

  /** Step `i` let a call through the gate that step `j` wrote. */
  predicate Recorded(initial: bool, steps: seq<Step>, i: nat, j: nat) {
    && i < j < |steps| && steps[i].TestGate? && steps[j] == WriteRing(steps[i].caller)
    && GateAt(initial, steps, i)
  }

  /** The ring holds a call although it was cleared after the gate was tested for it. */
  predicate HoldsStray(steps: seq<Step>, s: Race) {
    exists e :: e in s.ring && ClearedFrom(steps, e.at)
  }

  lemma {:induction false} TestIsRecorded(initial: bool, steps: seq<Step>, n: nat, c: nat)
    requires OwnNumbers(steps) && n <= |steps|
    ensures
      match PassedTest(initial, steps, n, c)
      case Some(e) => e.at < n && steps[e.at] == TestGate(c, e.call) && GateAt(initial, steps, e.at)
      case None => forall i :: 0 <= i < n && steps[i].TestGate? && steps[i].caller == c ==> !GateAt(initial, steps, i)
    decreases n
  {
    if n == 0 {
    } else {
      TestIsRecorded(initial, steps, n - 1, c);
    }
  }

  /** Step `j` puts `e` into the ring for good. */
  predicate Leaves(initial: bool, steps: seq<Step>, j: nat, e: Tested)
    requires j < |steps|
  {
    Survives(initial, steps, j) && PassedTest(initial, steps, j, steps[j].caller) == Some(e)
  }

  lemma {:induction false} SurvivorIsRecorded(initial: bool, steps: seq<Step>, n: nat, e: Tested)
    requires n <= |steps|
    ensures e in Surviving(initial, steps, n) <==> exists j :: 0 <= j < n && Leaves(initial, steps, j, e)
    decreases n
  {
    hide PassedTest, ClearedFrom;
    if n == 0 {
    } else {
      SurvivorIsRecorded(initial, steps, n - 1, e);
      if Leaves(initial, steps, n - 1, e) {
        assert e in Surviving(initial, steps, n);
      }
      if e in Surviving(initial, steps, n) && e !in Surviving(initial, steps, n - 1) {
        assert Leaves(initial, steps, n - 1, e);
      }
    }
  }

  /** A test is passed by at most one step, so what a write records is the one test before it. */
  lemma {:induction false} RecordedTest(initial: bool, steps: seq<Step>, i: nat, j: nat)
    requires OwnNumbers(steps) && Recorded(initial, steps, i, j)
    ensures PassedTest(initial, steps, j, steps[j].caller) == Some(Tested(steps[i].call, i))
  {
    var c := steps[j].caller;
    TestIsRecorded(initial, steps, j, c);
  }

  /** The ring was cleared between testing the gate and writing, and not again after the write. */
  predicate StrayAt(initial: bool, steps: seq<Step>, i: nat, k: nat, j: nat) {
    i < k < j && Recorded(initial, steps, i, j) && steps[k] == ClearRing && !ClearedFrom(steps, j + 1)
  }

  /** Exactly when a stray call is left in the ring. */
  lemma {:induction false} StraysExactly(initial: bool, steps: seq<Step>)
    requires OwnNumbers(steps)
    ensures HoldsStray(steps, After(initial, steps)) <==> exists i, k, j :: StrayAt(initial, steps, i, k, j)
  {
    hide After, OwnNumbers, StrayAt, ClearedFrom;
    var s := After(initial, steps);
    if HoldsStray(steps, s) {
      var e :| e in s.ring && ClearedFrom(steps, e.at);
      StrayWasCut(initial, steps, e);
    }
    if i: nat, k: nat, j: nat :| StrayAt(initial, steps, i, k, j) {
      CutLeavesStray(initial, steps, i, k, j);
    }
  }

  lemma {:induction false} StrayWasCut(initial: bool, steps: seq<Step>, e: Tested)
    requires OwnNumbers(steps) && e in After(initial, steps).ring && ClearedFrom(steps, e.at)
    ensures exists i, k, j :: StrayAt(initial, steps, i, k, j)
  {
    RingHoldsSurvivors(initial, steps);
    hide Surviving, PassedTest, After, OwnNumbers, GateAt;
    SurvivorIsRecorded(initial, steps, |steps|, e);
    var j :| 0 <= j < |steps| && Leaves(initial, steps, j, e);
    TestIsRecorded(initial, steps, j, steps[j].caller);
    var k :| e.at <= k < |steps| && steps[k] == ClearRing;
    assert k < j;
    assert StrayAt(initial, steps, e.at, k, j);
  }

  lemma {:induction false} CutLeavesStray(initial: bool, steps: seq<Step>, i: nat, k: nat, j: nat)
    requires OwnNumbers(steps) && StrayAt(initial, steps, i, k, j)
    ensures HoldsStray(steps, After(initial, steps))
  {
    RingHoldsSurvivors(initial, steps);
    RecordedTest(initial, steps, i, j);
    hide Surviving, PassedTest, After, OwnNumbers, GateAt;
    var e := Tested(steps[i].call, i);
    assert Leaves(initial, steps, j, e);
    SurvivorIsRecorded(initial, steps, |steps|, e);
    assert ClearedFrom(steps, e.at);
  }

  /** Such a run exists for every call: Disable and then Clear come between the test and the write, and
      the ring is left holding the call with the gate closed. */
  lemma {:induction false} StrayOutlivesDisableAndClear(call: Call)
    ensures
      var steps := [TestGate(0, call), StoreGate(false), ClearRing, WriteRing(0)];
      var s := After(true, steps);
      OwnNumbers(steps) && !s.enabled && s.ring == [Tested(call, 0)] && HoldsStray(steps, s)
  {
    var steps := [TestGate(0, call), StoreGate(false), ClearRing, WriteRing(0)];
    AfterMore(true, [], steps[..2]);
    AfterMore(true, steps[..2], steps[2..]);
    assert [] + steps[..2] == steps[..2] && steps[..2] + steps[2..] == steps;
    assert steps[2] == ClearRing;
  }

  /** Wherever an indivisible Record falls around Disable and then Clear, the ring ends up empty. */
  lemma {:induction false} NoOrderLeavesIt(call: Call)
    ensures
      var r := DoRecord(call);
      forall ops :: ops in {[r, DoDisable, DoClear], [DoDisable, r, DoClear], [DoDisable, DoClear, r]} ==>
        ApplyAll(Gate(true, []), ops).calls == []
  {
    var r := DoRecord(call);
    ApplyThree(r, DoDisable, DoClear);
    ApplyThree(DoDisable, r, DoClear);
    ApplyThree(DoDisable, DoClear, r);
  }

  lemma {:induction false} ApplyThree(a: Op, b: Op, c: Op)
    ensures ApplyAll(Gate(true, []), [a, b, c]) == Apply(Apply(Apply(Gate(true, []), a), b), c)
  {
    assert [a][..0] == [] && [a, b][..1] == [a] && [a, b, c][..2] == [a, b];
    assert ApplyAll(Gate(true, []), [a]) == Apply(Gate(true, []), a);
    assert ApplyAll(Gate(true, []), [a, b]) == Apply(Apply(Gate(true, []), a), b);
  }

  // ---------------------------------------------------------------- operations that do not overlap

  /** The steps of one operation run on its own. */
  function StepsOf(op: Op, caller: nat): seq<Step> {
    match op
    case DoRecord(call) => [TestGate(caller, call), WriteRing(caller)]
    case DoEnable => [ClearRing, StoreGate(true)]
    case DoDisable => [StoreGate(false)]
    case DoClear => [ClearRing]
  }

  function Serial(ops: seq<Op>): seq<Step> {
    if ops == [] then [] else Serial(ops[..|ops| - 1]) + StepsOf(ops[|ops| - 1], |ops| - 1)
  }

  function Calls(ring: seq<Tested>): seq<Call> {
    seq(|ring|, i requires 0 <= i < |ring| => ring[i].call)
  }

  lemma {:induction false} AfterMore(initial: bool, steps: seq<Step>, more: seq<Step>)
    requires |more| <= 2
    ensures After(initial, steps + more) ==
            if more == [] then After(initial, steps)
            else if |more| == 1 then Next(After(initial, steps), more[0])
            else Next(Next(After(initial, steps), more[0]), more[1])
  {
    if |more| == 0 {
      assert steps + more == steps;
    } else if |more| == 1 {
      assert (steps + more)[..|steps|] == steps;
    } else {
      assert (steps + more)[..|steps| + 1] == steps + [more[0]];
      assert (steps + [more[0]])[..|steps|] == steps;
    }
  }

  /** Operations that do not overlap behave as the Controller's methods say. */
  lemma {:induction false} SerialIsAtomic(initial: bool, ops: seq<Op>)
    ensures
      var s := After(initial, Serial(ops));
      s.passed == map[] && Gate(s.enabled, Calls(s.ring)) == ApplyAll(Gate(initial, []), ops)
  {
    if ops == [] {
      assert Calls([]) == [];
    } else {
      hide After, Next, Apply, Calls, StepsOf, Serial, ApplyAll;
      var n := |ops| - 1;
      SerialIsAtomic(initial, ops[..n]);
      LastOperation(initial, ops);
      AfterMore(initial, Serial(ops[..n]), StepsOf(ops[n], n));
      OneOperation(After(initial, Serial(ops[..n])), ops[n], n);
    }
  }

  lemma {:induction false} LastOperation(initial: bool, ops: seq<Op>)
    requires ops != []
    ensures
      var n := |ops| - 1;
      && Serial(ops) == Serial(ops[..n]) + StepsOf(ops[n], n) && 1 <= |StepsOf(ops[n], n)| <= 2
      && ApplyAll(Gate(initial, []), ops) == Apply(ApplyAll(Gate(initial, []), ops[..n]), ops[n])
  {
  }

  lemma {:induction false} OneOperation(s: Race, op: Op, n: nat)
    requires s.passed == map[]
    ensures
      var steps := StepsOf(op, n);
      var s' := if |steps| == 1 then Next(s, steps[0]) else Next(Next(s, steps[0]), steps[1]);
      s'.passed == map[] && Gate(s'.enabled, Calls(s'.ring)) == Apply(Gate(s.enabled, Calls(s.ring)), op)
  {
    if op.DoRecord? {
      var e := Tested(op.call, s.clock);
      assert s.passed[n := e] - {n} == map[];
      assert Calls(s.ring + [e]) == Calls(s.ring) + [op.call];
    }
  }
}
