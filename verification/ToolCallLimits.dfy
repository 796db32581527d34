/** Where the scanner stops (internal/engine/coerce.go, extractToolCallObjects): at the byte budget, at the nesting
    budget and inside an unfinished string. */
module ToolCallLimits {
  import opened Options
  import opened JsonText
  import opened ToolCallScan
  import opened ToolCallRepair
  import opened ToolCallReplies

  /** Nothing after the first MiB matters. */
  lemma {:induction false} BeyondBudgetIsIgnored<T>(a: string, b: string, parse: string -> Option<T>)
    requires |a| >= MAX_SCAN_BYTES
    ensures ToolCallObjects(a + b, parse) == ToolCallObjects(a[..MAX_SCAN_BYTES], parse)
  {
    hide Job.Run, Job.Repair;
    assert ScanPrefix(a + b) == ScanPrefix(a[..MAX_SCAN_BYTES]) by {
      assert (a + b)[..MAX_SCAN_BYTES] == a[..MAX_SCAN_BYTES];
    }
  }

  /** After a complete member: a comma and then white space, or all of the next member up to its value. */
  datatype Lead =
    | NextKey(post: string, pre: string)
    | NextValue(post: string, pre: string, key: string, mid: string, aft: string)

  function PrintLead(l: Lead): string {
    l.post + "," + if l.NextKey? then l.pre else Label(l.pre, l.key, l.mid, l.aft)
  }

  ghost predicate WellFormedLead(l: Lead) {
    && AllSpace(l.post) && AllSpace(l.pre)
    && (l.NextValue? ==> IsBody(l.key) && AllSpace(l.mid) && AllSpace(l.aft))
  }

  lemma {:induction false} LeadIsNoColon(t: string, i: nat, l: Lead)
    requires At(t, i, PrintLead(l)) && WellFormedLead(l)
    ensures !NextNonSpaceIsColon(t, i)
  {
    hide At, Label;
    AtConcat(t, i, l.post + ",", if l.NextKey? then l.pre else Label(l.pre, l.key, l.mid, l.aft));
    AtConcat(t, i, l.post, ",");
    AtChar(t, i + |l.post|, ",", 0);
    SpacesArePassed(t, i, l.post);
  }

  /** The lead changes neither what was found nor how many objects are open. */
  lemma {:induction false} RunLead<T>(job: Job<T>, s: Scan<T>, i: nat, l: Lead)
    requires At(job.t, i, PrintLead(l)) && WellFormedLead(l) && Ready(s, 0) && s.stack != []
    ensures
      var s' := job.Run(s, i, i + |PrintLead(l)|);
      Ready(s', 0) && s'.out == s.out && |s'.stack| == |s.stack|
  {
    hide job.Run, job.Step, At, Label, NextNonSpaceIsColon, IsBody, MarkIf;
    var next := if l.NextKey? then l.pre else Label(l.pre, l.key, l.mid, l.aft);
    AtInside(job.t, i, PrintLead(l));
    AtConcat(job.t, i, l.post + ",", next);
    var a := i + |l.post| + 1;
    RunInert(job, s, i, l.post + ",");
    RunSplit(job, s, i, a, a + |next|);
    if l.NextKey? {
      RunInert(job, s, a, l.pre);
    } else {
      RunLabel(job, s, a, l.pre, l.key, l.mid, l.aft);
    }
  }

  /** The text of the open objects, then the lead, then one byte and more: where the scan stands before that byte. */
  lemma {:induction false} ScanToLead<T>(prose: string, sp: Spine, l: Lead, rest: string, parse: string -> Option<T>)
    returns (s: Scan<T>)
    requires NoneOf(prose, {'"', '{'}) && WellFormedSpine(sp) && SpineDepth(sp) <= MAX_NEST_DEPTH && WellFormedLead(l)
    requires |prose| + |PrintOpen(sp) + PrintLead(l)| <= MAX_SCAN_BYTES
    ensures
      var job := Job(ScanPrefix(prose + (PrintOpen(sp) + PrintLead(l)) + rest), parse);
      var k := |prose| + |PrintOpen(sp) + PrintLead(l)|;
      && k <= |job.t| && s == job.Run(Start(), 0, k) && s.out == Take(Decoded(parse, WantedOpen(sp)), MAX_CANDIDATES)
      && (s.halt == Running ==> Ready(s, 0) && |s.stack| == Height(sp))
  {
    hide Print, PrintOpen, PrintLead, WantedOpen, Job.Step, Job.Run, Job.Collect, WellFormedSpine, SpineDepth, At;
    hide NextNonSpaceIsColon, NoneOf, WellFormedLead, Decoded;
    var front := PrintOpen(sp) + PrintLead(l);
    var job := Job(ScanPrefix(prose + front + rest), parse);
    PrefixLayout(prose, front, rest);
    var a := |prose|;
    AtInside(job.t, a, front);
    AtConcat(job.t, a, PrintOpen(sp), PrintLead(l));
    var b, k := a + |PrintOpen(sp)|, a + |front|;
    LeadIsNoColon(job.t, b, l);
    RunProse(job, Start(), 0, prose);
    var s1 := job.Run(Start(), 0, a);
    RunSplit(job, Start(), 0, a, k);
    RunOpen(job, s1, a, sp);
    assert s1.stack + Frames(sp, a) == Frames(sp, a);
    RunSplit(job, s1, a, b, k);
    var s2 := job.Run(s1, a, b);
    CollectIsTake(job, [], WantedOpen(sp));
    assert [] + Decoded(parse, WantedOpen(sp)) == Decoded(parse, WantedOpen(sp));
    if s2.halt == Running {
      assert |s2.stack| <= MAX_NEST_DEPTH by {
        HeightWithinDepth(sp);
      }
      RunLead(job, s2, b, l);
    } else {
      RunHalted(job, s2, b, k);
    }
    s := job.Run(s2, b, k);
  }

  lemma {:induction false} HeightWithinDepth(sp: Spine)
    ensures 1 <= Height(sp) <= SpineDepth(sp)
  {
    if sp.Branch? {
      HeightWithinDepth(sp.inner);
    }
  }

  /** With 64 objects open, one more brace ends the scan: whatever follows, only the wrapper objects complete by then
      are found, and none of the open ones is restored. */
  lemma {:induction false} TooDeepEndsTheScan<T>(
    prose: string, sp: Spine, l: Lead, rest: string, parse: string -> Option<T>)
    requires NoneOf(prose, {'"', '{'}) && WellFormedSpine(sp) && WellFormedLead(l)
    requires SpineDepth(sp) == Height(sp) == MAX_NEST_DEPTH
    requires |prose| + |PrintOpen(sp) + PrintLead(l)| < MAX_SCAN_BYTES
    ensures ToolCallObjects(prose + (PrintOpen(sp) + PrintLead(l)) + ("{" + rest), parse)
         == Take(Found(WantedOpenValues(sp), parse), MAX_CANDIDATES)
  {
    hide Print, PrintOpen, PrintLead, WantedOpen, Job.Run, Job.Collect, WellFormedSpine, SpineDepth, At;
    hide NextNonSpaceIsColon, NoneOf, WellFormedLead, Decoded, Found, WantedOpenValues;
    var front := PrintOpen(sp) + PrintLead(l);
    var text := prose + front + ("{" + rest);
    var job := Job(ScanPrefix(text), parse);
    var s := ScanToLead(prose, sp, l, "{" + rest, parse);
    var k := |prose| + |front|;
    RunSplit(job, Start(), 0, k, |job.t|);
    if s.halt == Running {
      assert text[k] == '{' && k < |job.t| && job.t[k] == '{';
      RunSplit(job, s, k, k + 1, |job.t|);
      RunOne(job, s, k);
      RunHalted(job, job.Step(s, k), k + 1, |job.t|);
    } else {
      RunHalted(job, s, k, |job.t|);
    }
    WantedOpenAreTexts(sp);
    DecodedIsFound(WantedOpenValues(sp), parse);
  }

  /** A text that ends inside a string, perhaps right after a backslash: nothing is restored. */
  lemma {:induction false} CutInStringRestoresNothing<T>(
    prose: string, sp: Spine, l: Lead, body: string, escape: string, parse: string -> Option<T>)
    requires NoneOf(prose, {'"', '{'}) && WellFormedSpine(sp) && WellFormedLead(l) && SpineDepth(sp) <= MAX_NEST_DEPTH
    requires IsBody(body) && (escape == "" || escape == "\\")
    requires |prose| + |PrintOpen(sp) + PrintLead(l)| + |"\"" + body + escape| <= MAX_SCAN_BYTES
    ensures ToolCallObjects(prose + (PrintOpen(sp) + PrintLead(l)) + ("\"" + body + escape), parse)
         == Take(Found(WantedOpenValues(sp), parse), MAX_CANDIDATES)
  {
    hide Print, PrintOpen, PrintLead, WantedOpen, Job.Run, Job.Step, Job.Collect, WellFormedSpine, SpineDepth, At;
    hide NextNonSpaceIsColon, NoneOf, WellFormedLead, Decoded, Found, WantedOpenValues, IsBody;
    var front := PrintOpen(sp) + PrintLead(l);
    var cut := "\"" + body + escape;
    var text := prose + front + cut;
    var job := Job(ScanPrefix(text), parse);
    var s := ScanToLead(prose, sp, l, cut, parse);
    var k := |prose| + |front|;
    RunSplit(job, Start(), 0, k, |job.t|);
    if s.halt == Running {
      ScannedWhole(text);
      EndsWith(prose + front, cut);
      RunUnfinished(job, s, k, body, escape);
    } else {
      RunHalted(job, s, k, |job.t|);
    }
    WantedOpenAreTexts(sp);
    DecodedIsFound(WantedOpenValues(sp), parse);
  }

  lemma {:induction false} EndsWith(front: string, cut: string)
    ensures At(front + cut, |front|, cut) && |front| + |cut| == |front + cut|
  {
  }

  lemma {:induction false} RunUnfinished<T>(job: Job<T>, s: Scan<T>, k: nat, body: string, escape: string)
    requires At(job.t, k, "\"" + body + escape) && k + 1 + |body| + |escape| == |job.t|
    requires IsBody(body) && (escape == "" || escape == "\\") && Ready(s, 0)
    ensures
      var s' := job.Run(s, k, |job.t|);
      s'.inStr && s'.out == s.out
  {
    hide job.Run, At, NextNonSpaceIsColon, IsBody;
    AtConcat(job.t, k, "\"" + body, escape);
    AtConcat(job.t, k, "\"", body);
    AtChar(job.t, k, "\"", 0);
    var s1 := job.Step(s, k);
    var b := k + 1 + |body|;
    RunOne(job, s, k);
    RunSplit(job, s, k, k + 1, |job.t|);
    RunBody(job, s1, k + 1, body);
    RunSplit(job, s1, k + 1, b, |job.t|);
    if escape == "" {
      RunNothing(job, s1, b);
    } else {
      AtChar(job.t, b, escape, 0);
      RunOne(job, s1, b);
    }
  }
}
