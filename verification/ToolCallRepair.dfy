/** Truncation repair of `{"tool_call": ...}` objects whose closing braces were lost
    (internal/engine/coerce.go, the tail of extractToolCallObjects). */
module ToolCallRepair {
  import opened Options
  import opened JsonText
  import opened ToolCallScan

  /** An object cut right after a complete member value: the objects still open, outermost first. */
  datatype Spine =
    | Tip(pad: string, members: Members)
    | Branch(pad: string, done: Members, pre: string, key: string, mid: string, aft: string, inner: Spine)

  ghost predicate WellFormedSpine(sp: Spine) {
    match sp
    case Tip(pad, members) => AllSpace(pad) && WellFormedMembers(members) && members.Member? && LastPost(members) == ""
    case Branch(pad, done, pre, key, mid, aft, inner) =>
      && AllSpace(pad) && WellFormedMembers(done) && AllSpace(pre) && IsBody(key) && AllSpace(mid) && AllSpace(aft)
      && WellFormedSpine(inner)
  }

  function Separator(done: Members): string {
    if done.NoMembers? then "" else ","
  }

  /** What is left of the text of the outermost object. */
  function PrintOpen(sp: Spine): string {
    match sp
    case Tip(pad, members) => "{" + pad + PrintMembers(members)
    case Branch(pad, done, pre, key, mid, aft, inner) =>
      "{" + pad + (PrintMembers(done) + Separator(done)) + Label(pre, key, mid, aft) + PrintOpen(inner)
  }

  function Height(sp: Spine): nat {
    if sp.Tip? then 1 else 1 + Height(sp.inner)
  }

  function SpineDepth(sp: Spine): nat {
    if sp.Tip? then 1 + MembersDepth(sp.members) else 1 + Max(MembersDepth(sp.done), SpineDepth(sp.inner))
  }

  function Append(ms: Members, last: Members): Members {
    if ms.NoMembers? then last else ms.(rest := Append(ms.rest, last))
  }

  /** The object the text was cut from. */
  function Closed(sp: Spine): Value {
    match sp
    case Tip(pad, members) => Obj(pad, members)
    case Branch(pad, done, pre, key, mid, aft, inner) =>
      Obj(pad, Append(done, Member(pre, key, mid, aft, Closed(inner), "", NoMembers)))
  }

  function Marked(sp: Spine): bool {
    if sp.Tip? then HasToolCall(sp.members) else HasToolCall(sp.done) || sp.key == TOOL_CALL
  }

  /** The innermost open object with a direct `tool_call` key. */
  function Focus(sp: Spine): (r: Option<Spine>)
    ensures r.Some? ==> 1 <= Height(r.value) <= Height(sp)
  {
    if sp.Tip? then (if Marked(sp) then Some(sp) else None)
    else if Focus(sp.inner).Some? then Focus(sp.inner)
    else if Marked(sp) then Some(sp)
    else None
  }

  function WantedOpen(sp: Spine): seq<string> {
    if sp.Tip? then WantedMembers(sp.members) else WantedMembers(sp.done) + WantedOpen(sp.inner)
  }

  function BranchHead(sp: Spine): string
    requires sp.Branch?
  {
    "{" + sp.pad + (PrintMembers(sp.done) + Separator(sp.done)) + Label(sp.pre, sp.key, sp.mid, sp.aft)
  }

  function Frames(sp: Spine, i: nat): (r: seq<Frame>)
    ensures |r| == Height(sp)
  {
    if sp.Tip? then [Frame(i, Marked(sp))]
    else [Frame(i, Marked(sp))] + Frames(sp.inner, i + |BranchHead(sp)|)
  }

  lemma {:induction false} PrintAppend(done: Members, last: Members)
    requires last.Member? && last.rest.NoMembers?
    ensures PrintMembers(Append(done, last)) == PrintMembers(done) + Separator(done) + PrintMembers(last)
  {
    if done.Member? {
      hide Print, Label;
      PrintAppend(done.rest, last);
      var head := Label(done.pre, done.key, done.mid, done.aft) + Print(done.value) + done.post;
      assert PrintMembers(Append(done, last)) == head + ("," + PrintMembers(Append(done.rest, last)));
    }
  }

  /** Adding one brace per open object gives back the text of the object that was cut. */
  lemma {:induction false} ClosingRestoresText(sp: Spine)
    ensures PrintOpen(sp) + Braces(Height(sp)) == Print(Closed(sp))
  {
    if sp.Tip? {
      assert Braces(1) == "}" + Braces(0);
    } else {
      ClosingRestoresText(sp.inner);
      BracesEnd(Height(sp.inner));
      var last := Member(sp.pre, sp.key, sp.mid, sp.aft, Closed(sp.inner), "", NoMembers);
      PrintAppend(sp.done, last);
      ClosingBranch(sp, last);
    }
  }

  lemma {:induction false} ClosingBranch(sp: Spine, last: Members)
    requires sp.Branch? && last == Member(sp.pre, sp.key, sp.mid, sp.aft, Closed(sp.inner), "", NoMembers)
    requires PrintOpen(sp.inner) + Braces(Height(sp.inner)) == Print(Closed(sp.inner))
    requires Braces(Height(sp)) == Braces(Height(sp.inner)) + "}"
    requires PrintMembers(Append(sp.done, last)) == PrintMembers(sp.done) + Separator(sp.done) + PrintMembers(last)
    ensures PrintOpen(sp) + Braces(Height(sp)) == Print(Closed(sp))
  {
    hide Braces, Label, Append, Closed, Height, Separator;
    var lbl := Label(sp.pre, sp.key, sp.mid, sp.aft);
    var done := PrintMembers(sp.done) + Separator(sp.done);
    assert PrintMembers(last) == lbl + Print(Closed(sp.inner)) + "" + "";
    assert PrintOpen(sp) == "{" + sp.pad + done + lbl + PrintOpen(sp.inner);
    ClosedBranch(sp, last);
    assert Print(Closed(sp)) == "{" + sp.pad + (done + PrintMembers(last)) + "}";
    Regroup("{" + sp.pad, done, lbl, PrintOpen(sp.inner), Braces(Height(sp.inner)), "}");
  }

  lemma {:induction false} Regroup(a: string, b: string, c: string, d: string, e: string, f: string)
    ensures a + b + c + d + (e + f) == a + (b + (c + (d + e) + "" + "")) + f
  {
  }

  lemma {:induction false} ClosedBranch(sp: Spine, last: Members)
    requires sp.Branch? && last == Member(sp.pre, sp.key, sp.mid, sp.aft, Closed(sp.inner), "", NoMembers)
    ensures Closed(sp) == Obj(sp.pad, Append(sp.done, last))
  {
  }

  lemma {:induction false} BracesEnd(n: nat)
    ensures Braces(n + 1) == Braces(n) + "}"
  {
    if n == 0 {
      assert Braces(1) == "}" + Braces(0);
    } else {
      BracesEnd(n - 1);
      assert Braces(n + 1) == "}" + Braces(n);
      assert Braces(n) == "}" + Braces(n - 1);
    }
  }

  // ---------------------------------------------------------------- scanning an open spine

  lemma {:induction false} TipLayout(t: string, i: nat, sp: Spine)
    requires sp.Tip? && At(t, i, PrintOpen(sp))
    ensures
      var a := i + 1 + |sp.pad|;
      && t[i] == '{' && At(t, i + 1, sp.pad) && At(t, a, PrintMembers(sp.members))
      && a + |PrintMembers(sp.members)| == i + |PrintOpen(sp)| <= |t|
  {
    AtConcat(t, i, "{" + sp.pad, PrintMembers(sp.members));
    AtConcat(t, i, "{", sp.pad);
    AtChar(t, i, "{", 0);
  }

  lemma {:induction false} BranchLayout(t: string, i: nat, sp: Spine)
    requires sp.Branch? && At(t, i, PrintOpen(sp)) && AllSpace(sp.pre)
    ensures
      var a := i + 1 + |sp.pad|;
      var b := a + |PrintMembers(sp.done)|;
      var c := b + |Separator(sp.done)|;
      var lbl := Label(sp.pre, sp.key, sp.mid, sp.aft);
      && t[i] == '{' && At(t, i + 1, sp.pad) && At(t, a, PrintMembers(sp.done)) && At(t, b, Separator(sp.done))
      && At(t, c, lbl) && At(t, c + |lbl|, PrintOpen(sp.inner))
      && c + |lbl| == i + |BranchHead(sp)| && c + |lbl| + |PrintOpen(sp.inner)| == i + |PrintOpen(sp)|
      && (sp.done.Member? ==> !NextNonSpaceIsColon(t, b))
  {
    hide Label, PrintOpen, PrintMembers, BranchHead, AllSpace, At, NextNonSpaceIsColon;
    var open := "{" + sp.pad;
    var done := PrintMembers(sp.done) + Separator(sp.done);
    assert |open| == 1 + |sp.pad| && |done| == |PrintMembers(sp.done)| + |Separator(sp.done)|;
    BranchParts(t, i, sp);
    AtConcat(t, i, "{", sp.pad);
    AtConcat(t, i + |open|, PrintMembers(sp.done), Separator(sp.done));
    AtInside(t, i, "{");
    AtChar(t, i, "{", 0);
    if sp.done.Member? {
      CommaIsNoColon(t, i + |open| + |PrintMembers(sp.done)|);
    }
  }

  lemma {:induction false} CommaIsNoColon(t: string, i: nat)
    requires At(t, i, ",")
    ensures !NextNonSpaceIsColon(t, i)
  {
    AtChar(t, i, ",", 0);
  }

  lemma {:induction false} BranchParts(t: string, i: nat, sp: Spine)
    requires sp.Branch? && At(t, i, PrintOpen(sp))
    ensures
      var open := "{" + sp.pad;
      var done := PrintMembers(sp.done) + Separator(sp.done);
      var lbl := Label(sp.pre, sp.key, sp.mid, sp.aft);
      var c := i + |open| + |done|;
      && At(t, i, open) && At(t, i + |open|, done) && At(t, c, lbl) && At(t, c + |lbl|, PrintOpen(sp.inner))
      && |BranchHead(sp)| == |open| + |done| + |lbl| && |PrintOpen(sp)| == |BranchHead(sp)| + |PrintOpen(sp.inner)|
  {
    hide Label, PrintMembers;
    AtConcat4(t, i, "{" + sp.pad, PrintMembers(sp.done) + Separator(sp.done),
              Label(sp.pre, sp.key, sp.mid, sp.aft), PrintOpen(sp.inner));
  }

  lemma {:induction false} RunTip<T>(job: Job<T>, s: Scan<T>, i: nat, sp: Spine)
    requires sp.Tip? && At(job.t, i, PrintOpen(sp)) && !NextNonSpaceIsColon(job.t, i + |PrintOpen(sp)|)
    requires WellFormedSpine(sp) && Ready(s, SpineDepth(sp))
    ensures Advanced(job.Run(s, i, i + |PrintOpen(sp)|), job.Collect(s.out, WantedOpen(sp)),
                     s.stack + Frames(sp, i), i + |PrintOpen(sp)| - 1)
  {
    hide job.Run, NextNonSpaceIsColon, At, PrintOpen, PrintMembers, WantedMembers, HasToolCall;
    TipLayout(job.t, i, sp);
    var a := i + 1 + |sp.pad|;
    var end := i + |PrintOpen(sp)|;
    var open := s.(stack := s.stack + [Frame(i, false)]);
    RunOne(job, s, i);
    RunSplit(job, s, i, i + 1, end);
    RunInert(job, open, i + 1, sp.pad);
    RunSplit(job, open, i + 1, a, end);
    RunMembers(job, open, a, sp.members);
    assert MarkIf(HasToolCall(sp.members), open.stack) == s.stack + [Frame(i, Marked(sp))];
  }

  /** The part of a branch before its open inner object. */
  lemma {:induction false} RunBranchHead<T>(job: Job<T>, s: Scan<T>, i: nat, sp: Spine)
    requires sp.Branch? && At(job.t, i, PrintOpen(sp)) && WellFormedSpine(sp) && Ready(s, SpineDepth(sp))
    requires i + |BranchHead(sp)| <= |job.t|
    ensures
      var s' := job.Run(s, i, i + |BranchHead(sp)|);
      Advanced(s', job.Collect(s.out, WantedMembers(sp.done)), s.stack + [Frame(i, Marked(sp))], s'.last)
  {
    hide job.Run, NextNonSpaceIsColon, At, PrintOpen, PrintMembers, WantedMembers, Label, BranchHead;
    BranchLayout(job.t, i, sp);
    var a := i + 1 + |sp.pad|;
    var open := s.(stack := s.stack + [Frame(i, false)]);
    var end := i + |BranchHead(sp)|;
    RunOne(job, s, i);
    RunSplit(job, s, i, i + 1, end);
    RunInert(job, open, i + 1, sp.pad);
    RunSplit(job, open, i + 1, a, end);
    RunDone(job, open, a, sp);
    RunLastLabel(job, s, open, a, end, i, sp);
  }

  lemma {:induction false} RunDone<T>(job: Job<T>, open: Scan<T>, a: nat, sp: Spine)
    requires sp.Branch? && WellFormedSpine(sp) && Ready(open, MembersDepth(sp.done)) && open.stack != []
    requires At(job.t, a, PrintMembers(sp.done)) && At(job.t, a + |PrintMembers(sp.done)|, Separator(sp.done))
    requires sp.done.Member? ==> !NextNonSpaceIsColon(job.t, a + |PrintMembers(sp.done)|)
    ensures
      var c := a + |PrintMembers(sp.done)| + |Separator(sp.done)|;
      && c <= |job.t|
      && var s' := job.Run(open, a, c);
      Advanced(s', job.Collect(open.out, WantedMembers(sp.done)), MarkIf(HasToolCall(sp.done), open.stack), s'.last)
  {
    hide Job.Run, Job.Step, Job.Collect, WantedMembers, PrintMembers, HasToolCall, NextNonSpaceIsColon, MarkIf;
    if sp.done.Member? {
      RunDoneComma(job, open, a, sp);
    } else {
      RunNothing(job, open, a);
      NothingDone(sp, open.stack);
      AtInside(job.t, a + |PrintMembers(sp.done)|, Separator(sp.done));
      NothingCollected(job, open.out);
    }
  }

  lemma {:induction false} RunNothing<T>(job: Job<T>, s: Scan<T>, a: nat)
    ensures a <= |job.t| ==> job.Run(s, a, a) == s
  {
  }

  lemma {:induction false} NothingCollected<T>(job: Job<T>, out: seq<T>)
    ensures job.Collect(out, []) == out
  {
  }

  lemma {:induction false} NothingDone(sp: Spine, stack: seq<Frame>)
    requires sp.Branch? && sp.done.NoMembers? && stack != []
    ensures |PrintMembers(sp.done)| == |Separator(sp.done)| == 0 && WantedMembers(sp.done) == []
    ensures MarkIf(HasToolCall(sp.done), stack) == stack
  {
  }

  lemma {:induction false} RunDoneComma<T>(job: Job<T>, open: Scan<T>, a: nat, sp: Spine)
    requires sp.Branch? && sp.done.Member? && WellFormedSpine(sp)
    requires Ready(open, MembersDepth(sp.done)) && open.stack != []
    requires At(job.t, a, PrintMembers(sp.done)) && At(job.t, a + |PrintMembers(sp.done)|, ",")
    requires !NextNonSpaceIsColon(job.t, a + |PrintMembers(sp.done)|)
    ensures
      var c := a + |PrintMembers(sp.done)| + 1;
      var s' := job.Run(open, a, c);
      Advanced(s', job.Collect(open.out, WantedMembers(sp.done)), MarkIf(HasToolCall(sp.done), open.stack), s'.last)
  {
    hide job.Run, job.Step, NextNonSpaceIsColon, At, PrintMembers, WantedMembers, HasToolCall, MarkIf;
    var b := a + |PrintMembers(sp.done)|;
    RunMembers(job, open, a, sp.done);
    AtInside(job.t, b, ",");
    RunSplit(job, open, a, b, b + 1);
    var s1 := job.Run(open, a, b);
    if s1.halt == Running {
      RunInert(job, s1, b, ",");
    } else {
      RunHalted(job, s1, b, b + 1);
    }
  }

  lemma {:induction false} RunLastLabel<T>(job: Job<T>, s: Scan<T>, open: Scan<T>, a: nat, end: nat, i: nat, sp: Spine)
    requires sp.Branch? && WellFormedSpine(sp) && Ready(s, 1)
    requires open == s.(stack := s.stack + [Frame(i, false)])
    requires
      var c := a + |PrintMembers(sp.done)| + |Separator(sp.done)|;
      var lbl := Label(sp.pre, sp.key, sp.mid, sp.aft);
      && c + |lbl| == end <= |job.t| && At(job.t, c, lbl)
      && var s1 := job.Run(open, a, c);
      Advanced(s1, job.Collect(s.out, WantedMembers(sp.done)), MarkIf(HasToolCall(sp.done), open.stack), s1.last)
    ensures
      var s' := job.Run(open, a, end);
      Advanced(s', job.Collect(s.out, WantedMembers(sp.done)), s.stack + [Frame(i, Marked(sp))], s'.last)
  {
    hide job.Run, job.Step, NextNonSpaceIsColon, At, PrintMembers, WantedMembers, Label, HasToolCall, MarkIf, Marked;
    var c := a + |PrintMembers(sp.done)| + |Separator(sp.done)|;
    var s1 := job.Run(open, a, c);
    RunSplit(job, open, a, c, end);
    if s1.halt == Running {
      RunLabel(job, s1, c, sp.pre, sp.key, sp.mid, sp.aft);
      MarkLast(s.stack, i, HasToolCall(sp.done), sp.key == TOOL_CALL);
      MarkedBranch(sp);
    } else {
      RunHalted(job, s1, c, end);
    }
  }

  lemma {:induction false} MarkedBranch(sp: Spine)
    requires sp.Branch?
    ensures Marked(sp) == (HasToolCall(sp.done) || sp.key == TOOL_CALL)
  {
  }

  lemma {:induction false} MarkLast(stack: seq<Frame>, i: nat, first: bool, second: bool)
    ensures MarkIf(second, MarkIf(first, stack + [Frame(i, false)])) == stack + [Frame(i, first || second)]
    ensures MarkIf(first, stack + [Frame(i, false)]) != []
  {
  }

  lemma {:induction false} RunOpen<T>(job: Job<T>, s: Scan<T>, i: nat, sp: Spine)
    requires At(job.t, i, PrintOpen(sp)) && !NextNonSpaceIsColon(job.t, i + |PrintOpen(sp)|)
    requires WellFormedSpine(sp) && Ready(s, SpineDepth(sp))
    ensures Advanced(job.Run(s, i, i + |PrintOpen(sp)|), job.Collect(s.out, WantedOpen(sp)),
                     s.stack + Frames(sp, i), i + |PrintOpen(sp)| - 1)
    decreases sp
  {
    if sp.Tip? {
      RunTip(job, s, i, sp);
    } else {
      RunBranch(job, s, i, sp);
    }
  }

  lemma {:induction false} RunBranch<T>(job: Job<T>, s: Scan<T>, i: nat, sp: Spine)
    requires sp.Branch?
    requires At(job.t, i, PrintOpen(sp)) && !NextNonSpaceIsColon(job.t, i + |PrintOpen(sp)|)
    requires WellFormedSpine(sp) && Ready(s, SpineDepth(sp))
    ensures Advanced(job.Run(s, i, i + |PrintOpen(sp)|), job.Collect(s.out, WantedOpen(sp)),
                     s.stack + Frames(sp, i), i + |PrintOpen(sp)| - 1)
    decreases sp, 0
  {
    hide job.Run, job.Step, job.Collect, NextNonSpaceIsColon, At, PrintOpen, PrintMembers, WantedMembers;
    hide BranchHead, Label;
    BranchLayout(job.t, i, sp);
    AtInside(job.t, i, PrintOpen(sp));
    var c := i + |BranchHead(sp)|;
    var end := i + |PrintOpen(sp)|;
    RunBranchHead(job, s, i, sp);
    var s1 := job.Run(s, i, c);
    var mid := s.stack + [Frame(i, Marked(sp))];
    assert s.stack + Frames(sp, i) == mid + Frames(sp.inner, c);
    if s1.halt == Running {
      RunOpen(job, s1, c, sp.inner);
    }
    Chain(job, s, i, c, end, WantedMembers(sp.done), WantedOpen(sp.inner), mid, s.stack + Frames(sp, i), end - 1);
  }

  ghost predicate Focused(t: string, frames: seq<Frame>, focus: Option<Spine>, end: nat) {
    match focus
    case None => forall k :: 0 <= k < |frames| ==> !frames[k].marked
    case Some(f) =>
      && Height(f) <= |frames|
      && var n := |frames| - Height(f);
      && frames[n].marked && (forall k :: n < k < |frames| ==> !frames[k].marked)
      && At(t, frames[n].start, PrintOpen(f)) && frames[n].start + |PrintOpen(f)| == end
  }

  /** The frame the repair picks belongs to the focused object, whose text runs to the cut. */
  lemma {:induction false} FocusFrame(t: string, i: nat, sp: Spine)
    requires At(t, i, PrintOpen(sp)) && WellFormedSpine(sp)
    ensures Focused(t, Frames(sp, i), Focus(sp), i + |PrintOpen(sp)|)
    decreases sp
  {
    if sp.Branch? {
      FocusBranch(t, i, sp);
    }
  }

  lemma {:induction false} FocusBranch(t: string, i: nat, sp: Spine)
    requires sp.Branch? && At(t, i, PrintOpen(sp)) && WellFormedSpine(sp)
    ensures Focused(t, Frames(sp, i), Focus(sp), i + |PrintOpen(sp)|)
    decreases sp, 0
  {
    hide PrintOpen, PrintMembers, NextNonSpaceIsColon, Label, At, BranchHead, Print, IsBody, AllSpace;
    hide WellFormedMembers;
    BranchLayout(t, i, sp);
    FocusFrame(t, i + |BranchHead(sp)|, sp.inner);
    var inner := Frames(sp.inner, i + |BranchHead(sp)|);
    var frames := Frames(sp, i);
    assert frames == [Frame(i, Marked(sp))] + inner;
    forall k | 1 <= k < |frames| ensures frames[k] == inner[k - 1] {
    }
    if Focus(sp).None? {
      assert Focus(sp.inner).None? && !frames[0].marked;
      forall k | 0 <= k < |frames| ensures !frames[k].marked {
        if k > 0 {
          assert !inner[k - 1].marked;
        }
      }
    }
  }

  /** Lost closing braces: besides the complete wrappers, the decoder is handed exactly the text
      of the innermost open `tool_call` object as it was before the cut. */
  lemma {:induction false} TruncatedObjectIsRestored<T>(
    prose: string, sp: Spine, tail: string, parse: string -> Option<T>)
    requires NoneOf(prose, {'"', '{'}) && AllSpace(tail)
    requires WellFormedSpine(sp) && SpineDepth(sp) <= MAX_NEST_DEPTH
    requires |prose| + |PrintOpen(sp)| + |tail| <= MAX_SCAN_BYTES
    ensures
      var repaired := match Focus(sp)
                      case None => []
                      case Some(f) =>
                        if Height(f) <= MAX_REPAIR_DEPTH && |PrintOpen(f)| <= MAX_REPAIR_SLICE
                        then [Print(Closed(f))] else [];
      ToolCallObjects(prose + PrintOpen(sp) + tail, parse)
        == Take(Decoded(parse, WantedOpen(sp) + repaired), MAX_CANDIDATES)
  {
    hide Print, PrintOpen, Closed, WantedOpen, Job.Step, Job.Run, Job.Collect, Job.Repair, WellFormedSpine, Frames;
    hide Focus, Height, Decoded, At, AllSpace, NoneOf, SpineDepth;
    var text := prose + PrintOpen(sp) + tail;
    var job := Job(text, parse);
    var s2 := ScanToCut(prose, sp, tail, parse);
    RepairAtCut(job, s2, |prose|, sp);
  }

  lemma {:induction false} ScanToCut<T>(
    prose: string, sp: Spine, tail: string, parse: string -> Option<T>)
    returns (s2: Scan<T>)
    requires NoneOf(prose, {'"', '{'}) && AllSpace(tail)
    requires WellFormedSpine(sp) && SpineDepth(sp) <= MAX_NEST_DEPTH
    requires |prose| + |PrintOpen(sp)| + |tail| <= MAX_SCAN_BYTES
    ensures
      var text := prose + PrintOpen(sp) + tail;
      var job := Job(text, parse);
      && ScanPrefix(text) == text && At(text, |prose|, PrintOpen(sp))
      && s2 == job.Run(Start(), 0, |text|)
      && Advanced(s2, job.Collect([], WantedOpen(sp)), Frames(sp, |prose|), |prose| + |PrintOpen(sp)| - 1)
  {
    hide Print, PrintOpen, WantedOpen, Job.Step, Job.Run, Job.Collect, WellFormedSpine, SpineDepth, NextNonSpaceIsColon;
    hide At, NoneOf, AllSpace;
    var text := prose + PrintOpen(sp) + tail;
    var job := Job(text, parse);
    PrefixLayout(prose, PrintOpen(sp), tail);
    ScannedWhole(text);
    var a := |prose|;
    var b := a + |PrintOpen(sp)|;
    CutLayout(prose + PrintOpen(sp), tail);
    RunProse(job, Start(), 0, prose);
    var s1 := job.Run(Start(), 0, a);
    RunSplit(job, Start(), 0, a, |text|);
    RunOpen(job, s1, a, sp);
    s2 := job.Run(s1, a, b);
    assert s1.stack + Frames(sp, a) == Frames(sp, a);
    RunSplit(job, s1, a, b, |text|);
    RunInertOrHalted(job, s2, b, tail);
  }

  lemma {:induction false} ScannedWhole(text: string)
    requires |text| <= MAX_SCAN_BYTES
    ensures ScanPrefix(text) == text
  {
  }

  lemma {:induction false} CutLayout(front: string, tail: string)
    requires AllSpace(tail)
    ensures At(front + tail, |front|, tail) && !NextNonSpaceIsColon(front + tail, |front|)
  {
    assert At(front + tail, |front|, tail);
    SpacesArePassed(front + tail, |front|, tail);
  }

  lemma {:induction false} RunInertOrHalted<T>(job: Job<T>, s: Scan<T>, i: nat, run: string)
    requires At(job.t, i, run) && AllSpace(run) && (s.halt == Running ==> !s.inStr)
    ensures job.Run(s, i, i + |run|) == s
  {
    if s.halt == Running { RunInert(job, s, i, run); } else { RunHalted(job, s, i, i + |run|); }
  }

  lemma {:induction false} RepairAtCut<T>(job: Job<T>, s: Scan<T>, i: nat, sp: Spine)
    requires At(job.t, i, PrintOpen(sp)) && WellFormedSpine(sp)
    requires Advanced(s, job.Collect([], WantedOpen(sp)), Frames(sp, i), i + |PrintOpen(sp)| - 1)
    ensures
      var repaired := match Focus(sp)
                      case None => []
                      case Some(f) =>
                        if Height(f) <= MAX_REPAIR_DEPTH && |PrintOpen(f)| <= MAX_REPAIR_SLICE
                        then [Print(Closed(f))] else [];
      job.Repair(s) == Take(Decoded(job.parse, WantedOpen(sp) + repaired), MAX_CANDIDATES)
  {
    hide Print, PrintOpen, WantedOpen, Job.Step, Job.Run, At, Closed, WellFormedSpine, Job.Accept, IsBody, Braces;
    var repaired := match Focus(sp)
                    case None => []
                    case Some(f) =>
                      if Height(f) <= MAX_REPAIR_DEPTH && |PrintOpen(f)| <= MAX_REPAIR_SLICE
                      then [Print(Closed(f))] else [];
    FocusFrame(job.t, i, sp);
    CollectSplit(job, [], WantedOpen(sp), repaired);
    CollectIsTake(job, [], WantedOpen(sp) + repaired);
    assert [] + Decoded(job.parse, WantedOpen(sp) + repaired) == Decoded(job.parse, WantedOpen(sp) + repaired);
    if s.halt == Running {
      CollectOne(job, s.out, repaired);
      RepairPicksFocus(job, s, i, sp);
    }
  }

  lemma {:induction false} RepairPicksFocus<T>(job: Job<T>, s: Scan<T>, i: nat, sp: Spine)
    requires At(job.t, i, PrintOpen(sp)) && WellFormedSpine(sp)
    requires s.halt == Running && !s.inStr && s.stack == Frames(sp, i) && s.last == i + |PrintOpen(sp)| - 1
    ensures
      job.Repair(s) == match Focus(sp)
                       case None => s.out
                       case Some(f) =>
                         if Height(f) <= MAX_REPAIR_DEPTH && |PrintOpen(f)| <= MAX_REPAIR_SLICE
                         then job.Accept(s.out, Print(Closed(f))) else s.out
  {
    hide Print, PrintOpen, Job.Step, Job.Run, Closed, WellFormedSpine, Job.Accept, IsBody, Braces, Frames;
    FocusFrame(job.t, i, sp);
    match Focus(sp)
    case None =>
    case Some(f) =>
      ClosingRestoresText(f);
      OpenNotEmpty(f);
      var n := Height(sp) - Height(f);
      assert InnermostMarked(s.stack) == Some(n);
      assert job.Slice(s.stack[n].start, s.last + 1) == PrintOpen(f);
  }

  lemma {:induction false} OpenNotEmpty(sp: Spine)
    ensures PrintOpen(sp) != ""
  {
  }
}
