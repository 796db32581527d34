/** The one-pass scanner that finds `{"tool_call": ...}` objects inside model prose
    (internal/engine/coerce.go, extractToolCallObjects). The JSON decoder is an argument, so
    every statement holds for whatever the decoder accepts. */
module ToolCallScan {
  import opened Options
  import opened JsonText

  const MAX_SCAN_BYTES: nat := 1_048_576
  const MAX_CANDIDATES: nat := 32
  const MAX_NEST_DEPTH: nat := 64
  const MAX_REPAIR_SLICE: nat := 65_536
  const MAX_REPAIR_DEPTH: nat := 8
  const TOOL_CALL := "tool_call"

  /** One open object: where its brace is, and whether a direct `tool_call` key was seen. */
  datatype Frame = Frame(start: nat, marked: bool)

  datatype Halt = Running | TooDeep | Full

  datatype Scan<T> = Scan(
    stack: seq<Frame>, inStr: bool, esc: bool, strStart: int, last: int, out: seq<T>, halt: Halt)

  datatype Quoting = Outside | Inside | Escaping

  function Reads(c: char, q: Quoting): Quoting {
    match q
    case Outside => if c == '"' then Inside else Outside
    case Escaping => Inside
    case Inside => if c == '\\' then Escaping else if c == '"' then Outside else Inside
  }

  function Writes(c: char, q: Quoting): string {
    if q != Inside then [c]
    else if c == '\n' then "\\n" else if c == '\r' then "\\r" else if c == '\t' then "\\t" else [c]
  }

  function RepairFrom(s: string, q: Quoting): string {
    if s == "" then "" else Writes(s[0], q) + RepairFrom(s[1..], Reads(s[0], q))
  }

  /** Raw line feeds, carriage returns and tabs inside strings become escapes. */
  function RepairControlChars(s: string): string {
    RepairFrom(s, Outside)
  }

  /** Whether the first non-space byte at or after `from` is a colon. */
  predicate NextNonSpaceIsColon(t: string, from: nat)
    decreases |t| - from
  {
    from < |t| && (t[from] == ':' || (IsSpace(t[from]) && NextNonSpaceIsColon(t, from + 1)))
  }

  /** The scanned bytes together with the decoder. */
  datatype Job<T> = Job(t: string, parse: string -> Option<T>) {

    function Slice(a: int, b: int): string {
      if 0 <= a <= b <= |t| then t[a..b] else ""
    }

    /** Decode a candidate, retrying once with raw control characters escaped. */
    function Accept(out: seq<T>, slice: string): seq<T> {
      match parse(slice)
      case Some(m) => out + [m]
      case None =>
        match parse(RepairControlChars(slice))
        case Some(m) => out + [m]
        case None => out
    }

    function Step(s: Scan<T>, j: nat): Scan<T>
      requires j < |t|
    {
      var ch := t[j];
      if s.inStr then
        if s.esc then s.(esc := false)
        else if ch == '\\' then s.(esc := true)
        else if ch == '"' then
          var closed := s.(inStr := false, last := j);
          if s.stack != [] && Slice(s.strStart, j) == TOOL_CALL && NextNonSpaceIsColon(t, j + 1) then
            closed.(stack := MarkTop(s.stack))
          else closed
        else s
      else if ch == '"' then s.(inStr := true, strStart := j + 1)
      else if ch == '{' then
        if |s.stack| >= MAX_NEST_DEPTH then s.(halt := TooDeep)
        else s.(stack := s.stack + [Frame(j, false)])
      else if ch == '}' then
        if s.stack == [] then s
        else
          var top := s.stack[|s.stack| - 1];
          var popped := s.(stack := s.stack[..|s.stack| - 1], last := j);
          if top.marked then
            var out := Accept(s.out, Slice(top.start, j + 1));
            popped.(out := out, halt := if |out| >= MAX_CANDIDATES then Full else Running)
          else popped
      else if ch == ']' || IsWordOrDot(ch) then s.(last := j)
      else s
    }

    function Run(s: Scan<T>, i: nat, k: nat): Scan<T>
      requires i <= k <= |t|
      decreases k - i
    {
      if i == k || s.halt != Running then s else Run(Step(s, i), i + 1, k)
    }

    /** The truncation repair after the loop: only the innermost marked object is tried. */
    function Repair(s: Scan<T>): seq<T> {
      if s.halt != Running || s.inStr then s.out
      else
        match InnermostMarked(s.stack)
        case None => s.out
        case Some(i) =>
          var depth := |s.stack| - i;
          var start := s.stack[i].start;
          if 1 <= depth <= MAX_REPAIR_DEPTH && s.last >= start && s.last + 1 - start <= MAX_REPAIR_SLICE then
            Accept(s.out, Slice(start, s.last + 1) + Braces(depth))
          else s.out
    }

    /** Feed slices to the decoder in order until the candidate budget is used up. */
    function Collect(out: seq<T>, slices: seq<string>): seq<T>
      decreases |slices|
    {
      if slices == [] || |out| >= MAX_CANDIDATES then out
      else Collect(Accept(out, slices[0]), slices[1..])
    }
  }

  function MarkTop(stack: seq<Frame>): seq<Frame>
    requires stack != []
  {
    stack[|stack| - 1 := stack[|stack| - 1].(marked := true)]
  }

  function InnermostMarked(stack: seq<Frame>): (r: Option<nat>)
    ensures r.Some? ==> r.value < |stack| && stack[r.value].marked
    ensures r.Some? ==> forall k :: r.value < k < |stack| ==> !stack[k].marked
    ensures r.None? ==> forall k :: 0 <= k < |stack| ==> !stack[k].marked
  {
    if stack == [] then None
    else if stack[|stack| - 1].marked then Some(|stack| - 1)
    else InnermostMarked(stack[..|stack| - 1])
  }

  function Braces(n: nat): string {
    if n == 0 then "" else "}" + Braces(n - 1)
  }

  function Start<T>(): Scan<T> {
    Scan([], false, false, -1, -1, [], Running)
  }

  function ScanPrefix(text: string): string {
    if |text| > MAX_SCAN_BYTES then text[..MAX_SCAN_BYTES] else text
  }

  function ToolCallObjects<T>(text: string, parse: string -> Option<T>): seq<T> {
    var job := Job(ScanPrefix(text), parse);
    job.Repair(job.Run(Start(), 0, |job.t|))
  }

  /** The texts of all objects with a direct `tool_call` key, in the order their braces close. */
  function Wanted(v: Value): seq<string> {
    match v
    case Scalar(_) => []
    case Str(_) => []
    case Arr(_, items) => WantedItems(items)
    case Obj(_, members) => WantedMembers(members) + (if HasToolCall(members) then [Print(v)] else [])
  }

  function WantedItems(xs: Items): seq<string> {
    match xs
    case NoItems => []
    case Item(_, value, _, rest) => Wanted(value) + WantedItems(rest)
  }

  function WantedMembers(ms: Members): seq<string> {
    match ms
    case NoMembers => []
    case Member(_, _, _, _, value, _, rest) => Wanted(value) + WantedMembers(rest)
  }

  predicate HasToolCall(ms: Members) {
    ms.Member? && (ms.key == TOOL_CALL || HasToolCall(ms.rest))
  }

  // ---------------------------------------------------------------- runs

  lemma {:induction false} RunSplit<T>(job: Job<T>, s: Scan<T>, i: nat, j: nat, k: nat)
    requires i <= j <= k <= |job.t|
    ensures job.Run(s, i, k) == job.Run(job.Run(s, i, j), j, k)
    decreases j - i
  {
    if i < j && s.halt == Running {
      RunSplit(job, job.Step(s, i), i + 1, j, k);
    }
  }

  lemma {:induction false} CollectSplit<T>(job: Job<T>, out: seq<T>, a: seq<string>, b: seq<string>)
    ensures job.Collect(out, a + b) == job.Collect(job.Collect(out, a), b)
    decreases |a|
  {
    if a == [] {
      assert a + b == b;
    } else if |out| < MAX_CANDIDATES {
      assert (a + b)[1..] == a[1..] + b;
      CollectSplit(job, job.Accept(out, a[0]), a[1..], b);
    }
  }

  lemma {:induction false} RunOne<T>(job: Job<T>, s: Scan<T>, i: nat)
    requires i < |job.t| && s.halt == Running
    ensures job.Run(s, i, i + 1) == job.Step(s, i)
  {
    assert job.Run(s, i, i + 1) == job.Run(job.Step(s, i), i + 1, i + 1);
  }

  /** A byte that changes nothing outside a string. */
  predicate Inert(c: char) {
    c != '"' && c != '{' && c != '}' && c != ']' && !IsWordOrDot(c)
  }

  lemma {:induction false} RunInert<T>(job: Job<T>, s: Scan<T>, i: nat, run: string)
    requires At(job.t, i, run) && forall k :: 0 <= k < |run| ==> Inert(run[k])
    requires !s.inStr
    ensures job.Run(s, i, i + |run|) == s
    decreases |run|
  {
    if run != "" && s.halt == Running {
      AtChar(job.t, i, run, 0);
      assert run == run[..1] + run[1..];
      AtConcat(job.t, i, run[..1], run[1..]);
      RunInert(job, s, i + 1, run[1..]);
    }
  }

  lemma {:induction false} RunScalar<T>(job: Job<T>, s: Scan<T>, i: nat, text: string)
    requires At(job.t, i, text) && IsScalar(text)
    requires !s.inStr && s.halt == Running
    ensures job.Run(s, i, i + |text|) == s.(last := i + |text| - 1)
    decreases |text|
  {
    AtChar(job.t, i, text, 0);
    if |text| > 1 {
      assert text == text[..1] + text[1..];
      AtConcat(job.t, i, text[..1], text[1..]);
      RunScalar(job, job.Step(s, i), i + 1, text[1..]);
    }
  }

  lemma {:induction false} RunBody<T>(job: Job<T>, s: Scan<T>, i: nat, body: string)
    requires At(job.t, i, body) && IsBody(body)
    requires s.inStr && !s.esc && s.halt == Running
    ensures job.Run(s, i, i + |body|) == s
    decreases |body|
  {
    if body == "" {
    } else {
      AtChar(job.t, i, body, 0);
      var n := if body[0] == '\\' then 2 else 1;
      assert body == body[..n] + body[n..];
      AtConcat(job.t, i, body[..n], body[n..]);
      RunBody(job, s, i + n, body[n..]);
      if n == 2 {
        AtChar(job.t, i, body, 1);
        assert job.Run(s, i, i + |body|) == job.Run(job.Step(s, i), i + 1, i + |body|);
      }
    }
  }

  /** The scan after a quoted string: a `tool_call` key marks the top frame, nothing else changes. */
  ghost function AfterQuoted<T>(job: Job<T>, s: Scan<T>, i: nat, body: string): Scan<T> {
    var k := i + |body| + 2;
    var marks := s.stack != [] && body == TOOL_CALL && NextNonSpaceIsColon(job.t, k);
    s.(last := k - 1, strStart := i + 1, stack := if marks then MarkTop(s.stack) else s.stack)
  }

  lemma {:induction false} RunQuoted<T>(job: Job<T>, s: Scan<T>, i: nat, body: string)
    requires At(job.t, i, Quoted(body)) && IsBody(body)
    requires !s.inStr && !s.esc && s.halt == Running
    ensures job.Run(s, i, i + |body| + 2) == AfterQuoted(job, s, i, body)
  {
    hide job.Run, NextNonSpaceIsColon, IsBody;
    var k := i + |body| + 2;
    QuotedLayout(job.t, i, body);
    var s1 := s.(inStr := true, strStart := i + 1);
    RunOne(job, s, i);
    RunBody(job, s1, i + 1, body);
    RunOne(job, s1, k - 1);
    RunSplit(job, s, i, i + 1, k);
    RunSplit(job, s1, i + 1, k - 1, k);
  }

  // ---------------------------------------------------------------- printed values

  ghost predicate Ready<T>(s: Scan<T>, depth: nat) {
    && s.halt == Running && !s.inStr && !s.esc && |s.out| < MAX_CANDIDATES
    && |s.stack| + depth <= MAX_NEST_DEPTH
  }

  /** The scan `s'` after a stretch of complete JSON: `out` was collected, and unless the
      candidate budget ran out the stack is `stack` and the last significant byte is `last`. */
  ghost predicate Advanced<T>(s': Scan<T>, out: seq<T>, stack: seq<Frame>, last: int) {
    && s'.out == out
    && (|out| >= MAX_CANDIDATES ==> s'.halt == Full)
    && (|out| < MAX_CANDIDATES ==>
          s'.halt == Running && s'.stack == stack && !s'.inStr && !s'.esc && s'.last == last)
  }

  /** Two stretches in a row; the second only matters while the budget lasts. */
  lemma {:induction false} Chain<T>(job: Job<T>, s: Scan<T>, i: nat, j: nat, k: nat,
                 first: seq<string>, second: seq<string>, mid: seq<Frame>, stack: seq<Frame>, last: int)
    requires i <= j <= k <= |job.t|
    requires Advanced(job.Run(s, i, j), job.Collect(s.out, first), mid, job.Run(s, i, j).last)
    requires job.Run(s, i, j).halt == Running ==>
               var s1 := job.Run(s, i, j);
               Advanced(job.Run(s1, j, k), job.Collect(s1.out, second), stack, last)
    ensures Advanced(job.Run(s, i, k), job.Collect(s.out, first + second), stack, last)
  {
    hide job.Step, job.Accept;
    RunSplit(job, s, i, j, k);
    CollectSplit(job, s.out, first, second);
  }

  lemma {:induction false} RunValue<T>(job: Job<T>, s: Scan<T>, i: nat, v: Value)
    requires At(job.t, i, Print(v)) && WellFormed(v) && Ready(s, ObjectDepth(v))
    requires s.stack == [] || !NextNonSpaceIsColon(job.t, i + |Print(v)|)
    ensures Advanced(job.Run(s, i, i + |Print(v)|), job.Collect(s.out, Wanted(v)), s.stack, i + |Print(v)| - 1)
    decreases v, 1
  {
    hide job.Run, job.Step, NextNonSpaceIsColon, IsBody;
    match v
    case Scalar(text) => RunScalar(job, s, i, text);
    case Str(body) => RunQuoted(job, s, i, body);
    case Arr(pad, items) => RunArray(job, s, i, v);
    case Obj(pad, members) => RunObject(job, s, i, v);
  }

  lemma {:induction false} ArrayLayout(t: string, i: nat, v: Value)
    requires v.Arr? && At(t, i, Print(v))
    ensures
      var a := i + 1 + |v.pad|;
      var k := a + |PrintItems(v.items)|;
      && At(t, i, "[" + v.pad) && At(t, a, PrintItems(v.items))
      && k + 1 == i + |Print(v)| <= |t| && t[k] == ']' && !NextNonSpaceIsColon(t, k)
  {
    hide At, PrintItems;
    AtInside(t, i, Print(v));
    InsideLayout(t, i, v);
    AtConcat(t, i, "[" + v.pad + PrintItems(v.items), "]");
    AtConcat(t, i, "[" + v.pad, PrintItems(v.items));
  }

  lemma {:induction false} RunArray<T>(job: Job<T>, s: Scan<T>, i: nat, v: Value)
    requires v.Arr? && At(job.t, i, Print(v)) && WellFormed(v) && Ready(s, ObjectDepth(v))
    ensures Advanced(job.Run(s, i, i + |Print(v)|), job.Collect(s.out, Wanted(v)), s.stack, i + |Print(v)| - 1)
    decreases v, 0
  {
    hide job.Run, NextNonSpaceIsColon, At, Print, PrintItems, WantedItems;
    ArrayLayout(job.t, i, v);
    var a := i + 1 + |v.pad|;
    var k := a + |PrintItems(v.items)|;
    RunInert(job, s, i, "[" + v.pad);
    RunSplit(job, s, i, a, k + 1);
    RunItems(job, s, a, v.items);
    var s1 := job.Run(s, a, k);
    if s1.halt == Running {
      RunOne(job, s1, k);
    }
    Chain(job, s, a, k, k + 1, WantedItems(v.items), [], s.stack, s.stack, k);
    assert WantedItems(v.items) + [] == WantedItems(v.items);
  }

  /** After a value, spaces and then a comma or something that is no colon. */
  lemma {:induction false} ColonAhead(t: string, b: nat, post: string, comma: string)
    requires At(t, b, post) && AllSpace(post) && (comma == "" || (comma == "," && At(t, b + |post|, comma)))
    requires comma == "" ==> !NextNonSpaceIsColon(t, b + |post|)
    ensures !NextNonSpaceIsColon(t, b)
  {
    if comma == "," {
      AtChar(t, b + |post|, comma, 0);
    }
    SpacesArePassed(t, b, post);
  }

  lemma {:induction false} ItemLayout(t: string, i: nat, xs: Items)
    requires xs.Item? && At(t, i, PrintItems(xs)) && WellFormedItems(xs)
    requires !NextNonSpaceIsColon(t, i + |PrintItems(xs)|)
    ensures
      var a := i + |xs.pre|;
      var b := a + |Print(xs.value)|;
      var c := b + |xs.post|;
      && At(t, i, xs.pre) && At(t, a, Print(xs.value)) && At(t, b, xs.post) && !NextNonSpaceIsColon(t, b)
      && c <= i + |PrintItems(xs)| <= |t|
      && (if xs.rest.NoItems? then c == i + |PrintItems(xs)|
          else At(t, c, ",") && At(t, c + 1, PrintItems(xs.rest))
               && c + 1 + |PrintItems(xs.rest)| == i + |PrintItems(xs)|)
  {
    hide At, Print, PrintItems;
    ItemsLayout(t, i, xs);
    ColonAhead(t, i + |xs.pre| + |Print(xs.value)|, xs.post, if xs.rest.NoItems? then "" else ",");
  }

  lemma {:induction false} RunItems<T>(job: Job<T>, s: Scan<T>, i: nat, xs: Items)
    requires At(job.t, i, PrintItems(xs)) && !NextNonSpaceIsColon(job.t, i + |PrintItems(xs)|)
    requires WellFormedItems(xs) && Ready(s, ItemsDepth(xs))
    ensures
      var s' := job.Run(s, i, i + |PrintItems(xs)|);
      Advanced(s', job.Collect(s.out, WantedItems(xs)), s.stack, s'.last)
    decreases xs, 2
  {
    if xs.Item? {
      RunItemList(job, s, i, xs);
    }
  }

  lemma {:induction false} RunItemList<T>(job: Job<T>, s: Scan<T>, i: nat, xs: Items)
    requires xs.Item?
    requires At(job.t, i, PrintItems(xs)) && !NextNonSpaceIsColon(job.t, i + |PrintItems(xs)|)
    requires WellFormedItems(xs) && Ready(s, ItemsDepth(xs))
    ensures
      var s' := job.Run(s, i, i + |PrintItems(xs)|);
      Advanced(s', job.Collect(s.out, WantedItems(xs)), s.stack, s'.last)
    decreases xs, 1
  {
    hide job.Run, job.Step, NextNonSpaceIsColon, At, Print, PrintItems, Wanted, job.Collect, IsBody;
    ItemLayout(job.t, i, xs);
    var a := i + |xs.pre|;
    var b := a + |Print(xs.value)|;
    var end := i + |PrintItems(xs)|;
    RunInert(job, s, i, xs.pre);
    RunSplit(job, s, i, a, end);
    RunValue(job, s, a, xs.value);
    var s1 := job.Run(s, a, b);
    if s1.halt == Running {
      RunRestItems(job, s1, b, b + |xs.post|, end, xs);
    }
    Chain(job, s, a, b, end, Wanted(xs.value), WantedItems(xs.rest), s.stack, s.stack, job.Run(s1, b, end).last);
  }

  lemma {:induction false} RunRestItems<T>(job: Job<T>, s: Scan<T>, b: nat, c: nat, end: nat, xs: Items)
    requires xs.Item? && At(job.t, b, xs.post) && c == b + |xs.post| && c <= end <= |job.t|
    requires xs.rest.NoItems? ==> c == end
    requires xs.rest.Item? ==> At(job.t, c, ",") && At(job.t, c + 1, PrintItems(xs.rest))
                               && end == c + 1 + |PrintItems(xs.rest)|
    requires !NextNonSpaceIsColon(job.t, end)
    requires WellFormedItems(xs) && Ready(s, ItemsDepth(xs))
    ensures
      var s' := job.Run(s, b, end);
      Advanced(s', job.Collect(s.out, WantedItems(xs.rest)), s.stack, s'.last)
    decreases xs, 0
  {
    hide job.Step, NextNonSpaceIsColon, At, Print, PrintItems, Wanted;
    RunInert(job, s, b, xs.post);
    RunSplit(job, s, b, c, end);
    if xs.rest.Item? {
      RunInert(job, s, c, ",");
      RunSplit(job, s, c, c + 1, end);
      RunItems(job, s, c + 1, xs.rest);
    }
  }

  lemma {:induction false} ObjectLayout(t: string, i: nat, v: Value)
    requires v.Obj? && At(t, i, Print(v))
    ensures
      var a := i + 1 + |v.pad|;
      var k := a + |PrintMembers(v.members)|;
      && t[i] == '{' && At(t, i + 1, v.pad) && At(t, a, PrintMembers(v.members))
      && k + 1 == i + |Print(v)| <= |t| && t[k] == '}' && !NextNonSpaceIsColon(t, k)
      && t[i..k + 1] == Print(v)
  {
    hide PrintMembers;
    InsideLayout(t, i, v);
  }

  lemma {:induction false} RunObject<T>(job: Job<T>, s: Scan<T>, i: nat, v: Value)
    requires v.Obj? && At(job.t, i, Print(v)) && WellFormed(v) && Ready(s, ObjectDepth(v))
    ensures Advanced(job.Run(s, i, i + |Print(v)|), job.Collect(s.out, Wanted(v)), s.stack, i + |Print(v)| - 1)
    decreases v, 0
  {
    hide job.Run, NextNonSpaceIsColon, At, Print, PrintMembers, WantedMembers;
    ObjectLayout(job.t, i, v);
    var a := i + 1 + |v.pad|;
    var k := a + |PrintMembers(v.members)|;
    var open := s.(stack := s.stack + [Frame(i, false)]);
    RunOne(job, s, i);
    RunSplit(job, s, i, i + 1, k + 1);
    RunInert(job, open, i + 1, v.pad);
    RunSplit(job, open, i + 1, a, k + 1);
    RunMembers(job, open, a, v.members);
    CloseObject(job, s, open, a, k, i, v);
  }

  /** The closing brace hands a marked object to the decoder and drops its frame. */
  lemma {:induction false} CloseObject<T>(job: Job<T>, s: Scan<T>, open: Scan<T>, a: nat, k: nat, i: nat, v: Value)
    requires v.Obj? && i < a <= k < |job.t| && job.t[k] == '}' && job.t[i..k + 1] == Print(v)
    requires Ready(s, 1) && open == s.(stack := s.stack + [Frame(i, false)])
    requires
      var s1 := job.Run(open, a, k);
      var stack := if HasToolCall(v.members) then MarkTop(open.stack) else open.stack;
      Advanced(s1, job.Collect(s.out, WantedMembers(v.members)), stack, s1.last)
    ensures Advanced(job.Run(open, a, k + 1), job.Collect(s.out, Wanted(v)), s.stack, k)
  {
    hide job.Run, Print, PrintMembers, WantedMembers, HasToolCall;
    var s1 := job.Run(open, a, k);
    var mine := if HasToolCall(v.members) then [Print(v)] else [];
    var stack := if HasToolCall(v.members) then MarkTop(open.stack) else open.stack;
    if s1.halt == Running {
      RunOne(job, s1, k);
      assert stack[..|stack| - 1] == s.stack;
      assert job.Slice(i, k + 1) == Print(v);
      CollectOne(job, s1.out, mine);
    }
    Chain(job, open, a, k, k + 1, WantedMembers(v.members), mine, stack, s.stack, k);
  }

  lemma {:induction false} CollectOne<T>(job: Job<T>, out: seq<T>, slices: seq<string>)
    requires |slices| <= 1 && |out| < MAX_CANDIDATES
    ensures job.Collect(out, slices) == if slices == [] then out else job.Accept(out, slices[0])
  {
    if slices != [] {
      assert job.Collect(out, slices) == job.Collect(job.Accept(out, slices[0]), slices[1..]);
    }
  }

  lemma {:induction false} KeyLayout(t: string, i: nat, pre: string, key: string, mid: string, aft: string)
    requires At(t, i, Label(pre, key, mid, aft)) && AllSpace(mid)
    ensures
      var a := i + |pre|;
      var b := a + |key| + 2;
      && At(t, i, pre) && At(t, a, Quoted(key)) && At(t, b, mid + ":" + aft)
      && b + |mid| + 1 + |aft| == i + |Label(pre, key, mid, aft)| && NextNonSpaceIsColon(t, b)
  {
    hide At;
    LabelLayout(t, i, pre, key, mid, aft);
    var b := i + |pre| + |key| + 2;
    AtJoin(t, b, mid, ":");
    AtJoin(t, b, mid + ":", aft);
    SpacesShowColon(t, b, mid);
  }

  /** Label of a member: marks the open object exactly when the key is `tool_call`. */
  lemma {:induction false} RunLabel<T>(
    job: Job<T>, s: Scan<T>, i: nat, pre: string, key: string, mid: string, aft: string)
    requires At(job.t, i, Label(pre, key, mid, aft))
    requires AllSpace(pre) && IsBody(key) && AllSpace(mid) && AllSpace(aft)
    requires Ready(s, 0) && s.stack != []
    ensures
      var s' := job.Run(s, i, i + |Label(pre, key, mid, aft)|);
      Advanced(s', s.out, MarkIf(key == TOOL_CALL, s.stack), s'.last)
  {
    hide job.Run, job.Step, NextNonSpaceIsColon, At, IsBody;
    AtInside(job.t, i, Label(pre, key, mid, aft));
    KeyLayout(job.t, i, pre, key, mid, aft);
    var a := i + |pre|;
    var b := a + |key| + 2;
    var c := b + |mid| + 1 + |aft|;
    RunInert(job, s, i, pre);
    RunSplit(job, s, i, a, c);
    RunQuoted(job, s, a, key);
    RunSplit(job, s, a, b, c);
    RunInert(job, job.Run(s, a, b), b, mid + ":" + aft);
  }

  lemma {:induction false} MemberLayout(t: string, i: nat, ms: Members)
    requires ms.Member? && At(t, i, PrintMembers(ms)) && WellFormedMembers(ms)
    requires !NextNonSpaceIsColon(t, i + |PrintMembers(ms)|)
    ensures
      var lbl := Label(ms.pre, ms.key, ms.mid, ms.aft);
      var a := i + |lbl|;
      var b := a + |Print(ms.value)|;
      var c := b + |ms.post|;
      && At(t, i, lbl) && At(t, a, Print(ms.value)) && At(t, b, ms.post) && !NextNonSpaceIsColon(t, b)
      && c <= i + |PrintMembers(ms)| <= |t|
      && (if ms.rest.NoMembers? then c == i + |PrintMembers(ms)|
          else At(t, c, ",") && At(t, c + 1, PrintMembers(ms.rest))
               && c + 1 + |PrintMembers(ms.rest)| == i + |PrintMembers(ms)|)
  {
    hide At, Print, PrintMembers, Label;
    MembersLayout(t, i, ms);
    var b := i + |Label(ms.pre, ms.key, ms.mid, ms.aft)| + |Print(ms.value)|;
    ColonAhead(t, b, ms.post, if ms.rest.NoMembers? then "" else ",");
  }

  ghost function MarkIf(marks: bool, stack: seq<Frame>): (r: seq<Frame>)
    requires stack != []
    ensures |r| == |stack|
  {
    if marks then MarkTop(stack) else stack
  }

  lemma {:induction false} MarkMember(ms: Members, stack: seq<Frame>)
    requires ms.Member? && stack != []
    ensures MarkIf(HasToolCall(ms.rest), MarkIf(ms.key == TOOL_CALL, stack)) == MarkIf(HasToolCall(ms), stack)
  {
  }

  /** White space after the last member. */
  function LastPost(ms: Members): string {
    if ms.NoMembers? then "" else if ms.rest.NoMembers? then ms.post else LastPost(ms.rest)
  }

  lemma {:induction false} RunMember<T>(job: Job<T>, s: Scan<T>, i: nat, a: nat, b: nat, ms: Members)
    requires ms.Member? && a == i + |Label(ms.pre, ms.key, ms.mid, ms.aft)| && b == a + |Print(ms.value)|
    requires b <= |job.t|
    requires At(job.t, i, Label(ms.pre, ms.key, ms.mid, ms.aft)) && At(job.t, a, Print(ms.value))
    requires WellFormedMembers(ms) && Ready(s, MembersDepth(ms)) && s.stack != []
    requires !NextNonSpaceIsColon(job.t, b)
    ensures Advanced(job.Run(s, i, b), job.Collect(s.out, Wanted(ms.value)),
                     MarkIf(ms.key == TOOL_CALL, s.stack), b - 1)
    decreases ms, 0
  {
    hide job.Run, job.Step, NextNonSpaceIsColon, At, Print, Wanted, job.Collect, Label, IsBody, MarkIf;
    RunLabel(job, s, i, ms.pre, ms.key, ms.mid, ms.aft);
    RunSplit(job, s, i, a, b);
    RunValue(job, job.Run(s, i, a), a, ms.value);
  }

  lemma {:induction false} RunMembers<T>(job: Job<T>, s: Scan<T>, i: nat, ms: Members)
    requires At(job.t, i, PrintMembers(ms)) && !NextNonSpaceIsColon(job.t, i + |PrintMembers(ms)|)
    requires WellFormedMembers(ms) && Ready(s, MembersDepth(ms)) && s.stack != []
    ensures
      var end := i + |PrintMembers(ms)|;
      Advanced(job.Run(s, i, end), job.Collect(s.out, WantedMembers(ms)), MarkIf(HasToolCall(ms), s.stack),
               if ms.NoMembers? then s.last else end - 1 - |LastPost(ms)|)
    decreases ms, 4
  {
    if ms.Member? {
      RunMemberList(job, s, i, ms);
    }
  }

  lemma {:induction false} RunMemberList<T>(job: Job<T>, s: Scan<T>, i: nat, ms: Members)
    requires ms.Member?
    requires At(job.t, i, PrintMembers(ms)) && !NextNonSpaceIsColon(job.t, i + |PrintMembers(ms)|)
    requires WellFormedMembers(ms) && Ready(s, MembersDepth(ms)) && s.stack != []
    ensures
      var end := i + |PrintMembers(ms)|;
      Advanced(job.Run(s, i, end), job.Collect(s.out, WantedMembers(ms)), MarkIf(HasToolCall(ms), s.stack),
               end - 1 - |LastPost(ms)|)
    decreases ms, 3
  {
    hide *;
    MemberLayout(job.t, i, ms);
    var a := i + |Label(ms.pre, ms.key, ms.mid, ms.aft)|;
    var b := a + |Print(ms.value)|;
    RunMember(job, s, i, a, b, ms);
    RunOnwards(job, s, i, b, i + |PrintMembers(ms)|, ms);
  }

  lemma {:induction false} RunOnwards<T>(job: Job<T>, s: Scan<T>, i: nat, b: nat, end: nat, ms: Members)
    requires ms.Member? && i <= b && At(job.t, b, ms.post) && b + |ms.post| <= end <= |job.t|
    requires ms.rest.NoMembers? ==> b + |ms.post| == end
    requires ms.rest.Member? ==>
               var c := b + |ms.post|;
               && At(job.t, c, ",") && At(job.t, c + 1, PrintMembers(ms.rest))
               && end == c + 1 + |PrintMembers(ms.rest)|
    requires !NextNonSpaceIsColon(job.t, end)
    requires WellFormedMembers(ms) && Ready(s, MembersDepth(ms)) && s.stack != []
    requires Advanced(job.Run(s, i, b), job.Collect(s.out, Wanted(ms.value)),
                     MarkIf(ms.key == TOOL_CALL, s.stack), b - 1)
    ensures Advanced(job.Run(s, i, end), job.Collect(s.out, WantedMembers(ms)), MarkIf(HasToolCall(ms), s.stack),
                     end - 1 - |LastPost(ms)|)
    decreases ms, 2
  {
    hide job.Run, job.Step, NextNonSpaceIsColon, At, Print, PrintMembers, Wanted, job.Collect, IsBody;
    hide MarkTop, MarkIf, HasToolCall, AllSpace, LastPost;
    MarkMember(ms, s.stack);
    var s1 := job.Run(s, i, b);
    var mid := MarkIf(ms.key == TOOL_CALL, s.stack);
    var stack := MarkIf(HasToolCall(ms), s.stack);
    if s1.halt == Running {
      RunRestMembers(job, s1, b, end, ms);
    }
    Chain(job, s, i, b, end, Wanted(ms.value), WantedMembers(ms.rest), mid, stack, end - 1 - |LastPost(ms)|);
  }

  lemma {:induction false} RunRestMembers<T>(job: Job<T>, s: Scan<T>, b: nat, end: nat, ms: Members)
    requires ms.Member? && At(job.t, b, ms.post) && b + |ms.post| <= end <= |job.t|
    requires ms.rest.NoMembers? ==> b + |ms.post| == end
    requires ms.rest.Member? ==>
               var c := b + |ms.post|;
               && At(job.t, c, ",") && At(job.t, c + 1, PrintMembers(ms.rest))
               && end == c + 1 + |PrintMembers(ms.rest)|
    requires !NextNonSpaceIsColon(job.t, end)
    requires WellFormedMembers(ms) && Ready(s, MembersDepth(ms)) && s.stack != [] && s.last == b - 1
    ensures Advanced(job.Run(s, b, end), job.Collect(s.out, WantedMembers(ms.rest)),
                     MarkIf(HasToolCall(ms.rest), s.stack), end - 1 - |LastPost(ms)|)
    decreases ms, 1
  {
    hide job.Step, NextNonSpaceIsColon, At, Print, PrintMembers, Wanted, IsBody;
    var c := b + |ms.post|;
    RunInert(job, s, b, ms.post);
    RunSplit(job, s, b, c, end);
    if ms.rest.Member? {
      RunInert(job, s, c, ",");
      RunSplit(job, s, c, c + 1, end);
      RunMembers(job, s, c + 1, ms.rest);
    }
  }

  /** White space does not change what the next significant byte is. */
  lemma {:induction false} SpacesArePassed(t: string, i: nat, spaces: string)
    requires At(t, i, spaces) && AllSpace(spaces)
    ensures NextNonSpaceIsColon(t, i) <==> NextNonSpaceIsColon(t, i + |spaces|)
    decreases |spaces|
  {
    if spaces == "" {
    } else {
      AtChar(t, i, spaces, 0);
      assert spaces == spaces[..1] + spaces[1..];
      AtConcat(t, i, spaces[..1], spaces[1..]);
      SpacesArePassed(t, i + 1, spaces[1..]);
    }
  }

  lemma {:induction false} SpacesShowColon(t: string, i: nat, spaces: string)
    requires At(t, i, spaces + ":") && AllSpace(spaces)
    ensures NextNonSpaceIsColon(t, i)
    decreases |spaces|
  {
    AtChar(t, i, spaces + ":", 0);
    if spaces == "" {
    } else {
      assert spaces + ":" == spaces[..1] + (spaces[1..] + ":");
      AtConcat(t, i, spaces[..1], spaces[1..] + ":");
      SpacesShowColon(t, i + 1, spaces[1..]);
    }
  }

  // ---------------------------------------------------------------- any input

  /** The open-object stack never exceeds its budget, and neither does the output, on any input. */
  lemma {:induction false} RunWithinBudgets<T>(job: Job<T>, s: Scan<T>, i: nat, k: nat)
    requires i <= k <= |job.t| && WithinBudgets(s, i)
    ensures WithinBudgets(job.Run(s, i, k), k)
    decreases k - i
  {
    if i < k && s.halt == Running {
      StepWithinBudgets(job, s, i);
      RunWithinBudgets(job, job.Step(s, i), i + 1, k);
    }
  }

  ghost predicate WithinBudgets<T>(s: Scan<T>, j: nat) {
    && |s.stack| <= MAX_NEST_DEPTH && |s.out| <= MAX_CANDIDATES
    && (s.halt == Running ==> |s.out| < MAX_CANDIDATES)
    && -1 <= s.last < j && -1 <= s.strStart <= j && (s.inStr ==> 0 <= s.strStart)
    && (forall k :: 0 <= k < |s.stack| ==> s.stack[k].start < j)
  }

  lemma {:induction false} StepWithinBudgets<T>(job: Job<T>, s: Scan<T>, j: nat)
    requires j < |job.t| && s.halt == Running && WithinBudgets(s, j)
    ensures WithinBudgets(job.Step(s, j), j + 1)
  {
    hide RepairControlChars, NextNonSpaceIsColon;
  }

  lemma {:induction false} OutputBounded<T>(text: string, parse: string -> Option<T>)
    ensures |ToolCallObjects(text, parse)| <= MAX_CANDIDATES
  {
    hide RepairControlChars;
    var job := Job(ScanPrefix(text), parse);
    RunWithinBudgets(job, Start(), 0, |job.t|);
  }

  // ---------------------------------------------------------------- main results

  /** What the decoder makes of the slices, in order, without any budget: each is tried as it is, then with raw
      control characters escaped. */
  function Decoded<T>(parse: string -> Option<T>, slices: seq<string>): seq<T> {
    if slices == [] then []
    else
      var raw, repaired := parse(slices[0]), parse(RepairControlChars(slices[0]));
      var one := if raw.Some? then [raw.value] else if repaired.Some? then [repaired.value] else [];
      one + Decoded(parse, slices[1..])
  }

  function Take<T>(s: seq<T>, n: nat): seq<T> {
    if |s| <= n then s else s[..n]
  }

  lemma {:induction false} CollectIsTake<T>(job: Job<T>, out: seq<T>, slices: seq<string>)
    requires |out| <= MAX_CANDIDATES
    ensures job.Collect(out, slices) == Take(out + Decoded(job.parse, slices), MAX_CANDIDATES)
    decreases |slices|
  {
    hide RepairControlChars;
    if slices == [] {
      assert out + [] == out;
    } else {
      var one := Job("", job.parse).Accept([], slices[0]);
      assert job.Accept(out, slices[0]) == out + one;
      assert out + Decoded(job.parse, slices) == out + one + Decoded(job.parse, slices[1..]);
      if |out| < MAX_CANDIDATES {
        CollectIsTake(job, out + one, slices[1..]);
      }
    }
  }

  ghost predicate NoneOf(s: string, bad: set<char>) {
    forall k :: 0 <= k < |s| ==> s[k] !in bad
  }

  lemma {:induction false} RunProse<T>(job: Job<T>, s: Scan<T>, i: nat, prose: string)
    requires At(job.t, i, prose) && NoneOf(prose, {'"', '{'})
    requires !s.inStr && s.stack == [] && s.halt == Running
    ensures
      var s' := job.Run(s, i, i + |prose|);
      s' == s.(last := s'.last)
    decreases |prose|
  {
    if prose == "" {
    } else {
      AtChar(job.t, i, prose, 0);
      assert prose == prose[..1] + prose[1..];
      AtConcat(job.t, i, prose[..1], prose[1..]);
      RunProse(job, job.Step(s, i), i + 1, prose[1..]);
    }
  }

  lemma {:induction false} RunTrailing<T>(job: Job<T>, s: Scan<T>, i: nat)
    requires i <= |job.t| && forall k :: i <= k < |job.t| ==> job.t[k] != '{'
    requires s.stack == []
    ensures
      var s' := job.Run(s, i, |job.t|);
      s'.stack == [] && s'.out == s.out
    decreases |job.t| - i
  {
    if i < |job.t| && s.halt == Running {
      RunTrailing(job, job.Step(s, i), i + 1);
    }
  }

  lemma {:induction false} PrefixLayout(prose: string, text: string, rest: string)
    requires |prose| + |text| <= MAX_SCAN_BYTES
    ensures
      var t := ScanPrefix(prose + text + rest);
      && At(t, 0, prose) && At(t, |prose|, text)
      && (forall k :: |prose| + |text| <= k < |t| ==> t[k] == rest[k - |prose| - |text|])
  {
    var t := ScanPrefix(prose + text + rest);
    var front := prose + text;
    assert |front| <= |t| && t[..|front|] == front;
    assert t[..|prose|] == front[..|prose|] == prose;
    assert t[|prose|..|front|] == front[|prose|..] == text;
  }

  /** A JSON value in prose: the decoder is handed exactly the printed objects that have a
      direct `tool_call` key, in closing order, up to the candidate budget. */
  lemma {:induction false} PrintedValueIsFound<T>(prose: string, v: Value, rest: string, parse: string -> Option<T>)
    requires NoneOf(prose, {'"', '{'}) && NoneOf(rest, {'{'})
    requires WellFormed(v) && ObjectDepth(v) <= MAX_NEST_DEPTH
    requires |prose| + |Print(v)| <= MAX_SCAN_BYTES
    ensures ToolCallObjects(prose + Print(v) + rest, parse) == Take(Decoded(parse, Wanted(v)), MAX_CANDIDATES)
  {
    hide Print, Wanted, RepairControlChars, Job.Step, Job.Accept, Job.Run, Job.Collect;
    var text := prose + Print(v) + rest;
    var job := Job(ScanPrefix(text), parse);
    PrefixLayout(prose, Print(v), rest);
    var a := |prose|;
    var b := a + |Print(v)|;
    RunProse(job, Start(), 0, prose);
    var s1 := job.Run(Start(), 0, a);
    RunSplit(job, Start(), 0, a, |job.t|);
    RunValue(job, s1, a, v);
    var s2 := job.Run(s1, a, b);
    RunSplit(job, s1, a, b, |job.t|);
    CollectIsTake(job, [], Wanted(v));
    assert [] + Decoded(parse, Wanted(v)) == Decoded(parse, Wanted(v));
    if s2.halt == Running {
      RunTrailing(job, s2, b);
    } else {
      RunHalted(job, s2, b, |job.t|);
    }
  }

  lemma {:induction false} RunHalted<T>(job: Job<T>, s: Scan<T>, i: nat, k: nat)
    requires i <= k <= |job.t| && s.halt != Running
    ensures job.Run(s, i, k) == s
  {
  }
}
