/** The scanner as the loop internal/engine/coerce.go runs, and its control-character repair. */
module ToolCallExtract {
  import opened Options
  import opened JsonText
  import opened ToolCallScan

  lemma {:induction false} RunNext<T>(job: Job<T>, s: Scan<T>, j: nat)
    requires j < |job.t| && s == job.Run(Start(), 0, j) && s.halt == Running && WithinBudgets(s, j)
    ensures job.Run(Start(), 0, j + 1) == job.Step(s, j) && WithinBudgets(job.Step(s, j), j + 1)
  {
    hide job.Run, job.Step;
    RunSplit(job, Start(), 0, j, j + 1);
    RunOne(job, s, j);
    StepWithinBudgets(job, s, j);
  }

  lemma {:induction false} RunEmpty<T>(job: Job<T>)
    ensures job.Run(Start(), 0, 0) == Start()
    ensures forall s: Scan<T> :: s.halt != Running || s.inStr ==> job.Repair(s) == s.out
  {
  }

  lemma {:induction false} RunStops<T>(job: Job<T>, j: nat)
    requires j <= |job.t| && job.Run(Start(), 0, j).halt != Running
    ensures job.Run(Start(), 0, |job.t|) == job.Run(Start(), 0, j)
  {
    hide job.Step;
    RunSplit(job, Start(), 0, j, |job.t|);
  }

  /** The single forward pass: equal to the reference scan on every input and decoder. */
  method ExtractToolCallObjects<T>(text: string, parse: string -> Option<T>) returns (out: seq<T>)
    ensures out == ToolCallObjects(text, parse)
    ensures |out| <= MAX_CANDIDATES
  {
    hide RepairControlChars, NextNonSpaceIsColon, Job.Accept, Job.Step, Job.Run, Job.Repair;
    OutputBounded(text, parse);
    RunEmpty(Job(ScanPrefix(text), parse));
    var scanLen := if |text| > MAX_SCAN_BYTES then MAX_SCAN_BYTES else |text|;
    var b := text[..scanLen];
    var job := Job(b, parse);
    assert b == ScanPrefix(text);
    out := [];
    var stack: seq<Frame>, inStr, esc, strStart, last, halt := [], false, false, -1, -1, Running;
    for j := 0 to scanLen
      invariant halt == Running
      invariant job.Run(Start(), 0, j) == Scan(stack, inStr, esc, strStart, last, out, Running)
      invariant WithinBudgets(job.Run(Start(), 0, j), j)
    {
      var s := Scan(stack, inStr, esc, strStart, last, out, Running);
      RunNext(job, s, j);
      if inStr {
        stack, inStr, esc, last := InString(job, j, s);
      } else if b[j] == '}' {
        stack, last, out, halt := CloseBrace(job, j, s);
      } else {
        stack, inStr, strStart, last, halt := OutsideString(job, j, s);
      }
      if halt != Running {
        RunStops(job, j + 1);
        return;
      }
    }
    if !inStr {
      out := RepairTruncation(job, Scan(stack, inStr, esc, strStart, last, out, Running));
    }
  }

  /** One byte of a string: its closing quote may complete the key `tool_call` of the top object. */
  method InString<T>(job: Job<T>, j: nat, s: Scan<T>) returns (stack: seq<Frame>, inStr: bool, esc: bool, last: int)
    requires j < |job.t| && WithinBudgets(s, j) && s.inStr
    ensures job.Step(s, j) == s.(stack := stack, inStr := inStr, esc := esc, last := last)
  {
    hide NextNonSpaceIsColon, Job.Accept;
    stack, inStr, esc, last := s.stack, true, s.esc, s.last;
    var ch := job.t[j];
    if esc {
      esc := false;
    } else if ch == '\\' {
      esc := true;
    } else if ch == '"' {
      inStr := false;
      last := j;
      if |stack| > 0 && job.t[s.strStart..j] == TOOL_CALL && NextNonSpaceIsColon(job.t, j + 1) {
        stack := stack[|stack| - 1 := stack[|stack| - 1].(marked := true)];
      }
    }
  }

  /** A closing brace pops the top object; a marked one is handed to the decoder. */
  method CloseBrace<T>(job: Job<T>, j: nat, s: Scan<T>)
    returns (stack: seq<Frame>, last: int, out: seq<T>, halt: Halt)
    requires j < |job.t| && WithinBudgets(s, j) && !s.inStr && s.halt == Running && job.t[j] == '}'
    ensures job.Step(s, j) == s.(stack := stack, last := last, out := out, halt := halt)
  {
    hide NextNonSpaceIsColon, RepairControlChars;
    stack, last, out, halt := s.stack, s.last, s.out, Running;
    if |stack| > 0 {
      var top := stack[|stack| - 1];
      stack := stack[..|stack| - 1];
      last := j;
      if top.marked {
        var slice := job.t[top.start..j + 1];
        var raw := job.parse(slice);
        if raw.Some? {
          out := out + [raw.value];
        } else {
          var repaired := job.parse(RepairControlChars(slice));
          if repaired.Some? {
            out := out + [repaired.value];
          }
        }
        if |out| >= MAX_CANDIDATES {
          halt := Full;
        }
      }
    }
  }

  /** Any other byte outside strings. */
  method OutsideString<T>(job: Job<T>, j: nat, s: Scan<T>)
    returns (stack: seq<Frame>, inStr: bool, strStart: int, last: int, halt: Halt)
    requires j < |job.t| && WithinBudgets(s, j) && !s.inStr && s.halt == Running && job.t[j] != '}'
    ensures job.Step(s, j) == s.(stack := stack, inStr := inStr, strStart := strStart, last := last, halt := halt)
  {
    hide NextNonSpaceIsColon, Job.Accept;
    stack, inStr, strStart, last, halt := s.stack, false, s.strStart, s.last, Running;
    var ch := job.t[j];
    if ch == '"' {
      inStr := true;
      strStart := j + 1;
    } else if ch == '{' {
      if |stack| >= MAX_NEST_DEPTH {
        halt := TooDeep;
      } else {
        stack := stack + [Frame(j, false)];
      }
    } else if ch == ']' || IsWordOrDot(ch) {
      last := j;
    }
  }

  /** After the loop: close the innermost marked object, if it is worth trying. */
  method RepairTruncation<T>(job: Job<T>, s: Scan<T>) returns (out: seq<T>)
    requires WithinBudgets(s, |job.t|) && s.halt == Running && !s.inStr
    ensures out == job.Repair(s)
  {
    hide Job.Accept, Job.Step;
    out := s.out;
    var i := |s.stack| - 1;
    while i >= 0
      invariant -1 <= i < |s.stack| && out == s.out
      invariant forall k :: i < k < |s.stack| ==> !s.stack[k].marked
    {
      if s.stack[i].marked {
        assert InnermostMarked(s.stack) == Some(i);
        var depth, start, end := |s.stack| - i, s.stack[i].start, s.last + 1;
        if 1 <= depth <= MAX_REPAIR_DEPTH && s.last >= start && end - start <= MAX_REPAIR_SLICE {
          out := job.Accept(s.out, job.t[start..end] + Braces(depth));
        }
        return;
      }
      i := i - 1;
    }
    assert InnermostMarked(s.stack) == None;
  }

  // ---------------------------------------------------------------- repairControlChars

  method RepairControlCharsLoop(s: string) returns (out: string)
    ensures out == RepairControlChars(s)
  {
    hide RepairFrom, ReadsAll;
    out := "";
    var inStr, esc := false, false;
    RepairNothing();
    for k := 0 to |s|
      invariant out == RepairFrom(s[..k], Outside) && State(inStr, esc) == ReadsAll(s[..k], Outside)
      invariant esc ==> inStr
    {
      RepairSnoc(s, k);
      var ch := s[k];
      if inStr {
        if esc {
          out := out + [ch];
          esc := false;
        } else if ch == '\\' {
          out := out + [ch];
          esc := true;
        } else if ch == '"' {
          out := out + [ch];
          inStr := false;
        } else if ch == '\n' {
          out := out + "\\n";
        } else if ch == '\r' {
          out := out + "\\r";
        } else if ch == '\t' {
          out := out + "\\t";
        } else {
          out := out + [ch];
        }
      } else {
        if ch == '"' {
          inStr := true;
        }
        out := out + [ch];
      }
    }
    assert s[..|s|] == s;
  }

  lemma {:induction false} RepairNothing()
    ensures RepairFrom("", Outside) == "" && ReadsAll("", Outside) == Outside
  {
  }

  lemma {:induction false} RepairSnoc(s: string, k: nat)
    requires k < |s|
    ensures
      var q := ReadsAll(s[..k], Outside);
      && RepairFrom(s[..k + 1], Outside) == RepairFrom(s[..k], Outside) + Writes(s[k], q)
      && ReadsAll(s[..k + 1], Outside) == Reads(s[k], q)
  {
    var q := ReadsAll(s[..k], Outside);
    assert s[..k + 1] == s[..k] + [s[k]];
    RepairConcat(s[..k], [s[k]], Outside);
    assert RepairFrom([s[k]], q) == Writes(s[k], q) + RepairFrom("", Reads(s[k], q));
  }

  function State(inStr: bool, esc: bool): Quoting {
    if !inStr then Outside else if esc then Escaping else Inside
  }

  /** A string body with its raw line feeds, carriage returns and tabs written as escapes. */
  function EscapeBody(body: string): string {
    if body == "" then ""
    else if body[0] == '\\' then (if |body| >= 2 then body[..2] + EscapeBody(body[2..]) else body)
    else if body[0] == '\n' then "\\n" + EscapeBody(body[1..])
    else if body[0] == '\r' then "\\r" + EscapeBody(body[1..])
    else if body[0] == '\t' then "\\t" + EscapeBody(body[1..])
    else [body[0]] + EscapeBody(body[1..])
  }

  /** The characters a body denotes; escapes other than these three are kept as written. */
  function Denotes(body: string): seq<string> {
    if body == "" then []
    else if body[0] == '\\' && |body| >= 2 then
      [if body[1] == 'n' then "\n" else if body[1] == 'r' then "\r" else if body[1] == 't' then "\t" else body[..2]]
        + Denotes(body[2..])
    else [body[..1]] + Denotes(body[1..])
  }

  function Escaped(v: Value): Value {
    match v
    case Scalar(text) => v
    case Str(body) => Str(EscapeBody(body))
    case Arr(pad, items) => Arr(pad, EscapedItems(items))
    case Obj(pad, members) => Obj(pad, EscapedMembers(members))
  }

  function EscapedItems(xs: Items): Items {
    if xs.NoItems? then NoItems
    else Item(xs.pre, Escaped(xs.value), xs.post, EscapedItems(xs.rest))
  }

  function EscapedMembers(ms: Members): Members {
    if ms.NoMembers? then NoMembers
    else Member(ms.pre, EscapeBody(ms.key), ms.mid, ms.aft, Escaped(ms.value), ms.post, EscapedMembers(ms.rest))
  }

  /** Escaping changes how a string is written, never what it denotes, and leaves no raw control character. */
  lemma {:induction false} EscapeKeepsMeaning(body: string)
    requires IsBody(body)
    ensures IsBody(EscapeBody(body)) && Denotes(EscapeBody(body)) == Denotes(body)
    ensures EscapeBody(EscapeBody(body)) == EscapeBody(body)
  {
    if body == "" {
    } else {
      var e := EscapeBody(body);
      if body[0] == '\\' {
        EscapeKeepsMeaning(body[2..]);
        assert e[..2] == body[..2] && e[2..] == EscapeBody(body[2..]);
      } else {
        EscapeKeepsMeaning(body[1..]);
        var n := if body[0] == '\n' || body[0] == '\r' || body[0] == '\t' then 2 else 1;
        assert e[n..] == EscapeBody(body[1..]);
        assert body[..1] == [body[0]];
        assert n == 1 ==> e[..1] == body[..1];
      }
    }
  }

  function ReadsAll(s: string, q: Quoting): Quoting {
    if s == "" then q else ReadsAll(s[1..], Reads(s[0], q))
  }

  /** `a` starts and ends outside strings and is rewritten to `a'`. */
  ghost predicate Rewrites(a: string, a': string) {
    RepairFrom(a, Outside) == a' && ReadsAll(a, Outside) == Outside
  }

  lemma {:induction false} RepairConcat(a: string, b: string, q: Quoting)
    ensures RepairFrom(a + b, q) == RepairFrom(a, q) + RepairFrom(b, ReadsAll(a, q))
    ensures ReadsAll(a + b, q) == ReadsAll(b, ReadsAll(a, q))
    decreases |a|
  {
    if a == "" {
      assert a + b == b;
    } else {
      assert (a + b)[1..] == a[1..] + b;
      RepairConcat(a[1..], b, Reads(a[0], q));
    }
  }

  lemma {:induction false} RewritesConcat(a: string, a': string, b: string, b': string)
    requires Rewrites(a, a') && Rewrites(b, b')
    ensures Rewrites(a + b, a' + b')
  {
    RepairConcat(a, b, Outside);
  }

  lemma {:induction false} RewritesPlain(a: string)
    requires forall k :: 0 <= k < |a| ==> a[k] != '"'
    ensures Rewrites(a, a)
    decreases |a|
  {
    if a == "" {
    } else {
      RewritesPlain(a[1..]);
      assert a == [a[0]] + a[1..];
    }
  }

  lemma {:induction false} RepairBody(body: string)
    requires IsBody(body)
    ensures RepairFrom(body, Inside) == EscapeBody(body) && ReadsAll(body, Inside) == Inside
    decreases |body|
  {
    if body == "" {
    } else {
      hide RepairFrom, EscapeBody, ReadsAll;
      BodyFirst(body);
      RepairBody(body[if body[0] == '\\' then 2 else 1..]);
    }
  }

  /** The first character of a body, or its first escape, is treated alike by both. */
  lemma {:induction false} BodyFirst(body: string)
    requires body != "" && IsBody(body)
    ensures
      var k := if body[0] == '\\' then 2 else 1;
      var c := if k == 2 then body[..2] else Writes(body[0], Inside);
      && k <= |body| && IsBody(body[k..])
      && RepairFrom(body, Inside) == c + RepairFrom(body[k..], Inside)
      && EscapeBody(body) == c + EscapeBody(body[k..])
      && ReadsAll(body, Inside) == ReadsAll(body[k..], Inside)
  {
    if body[0] == '\\' {
      var tail := body[1..];
      assert tail[1..] == body[2..] && body[..2] == [body[0]] + [tail[0]];
      assert RepairFrom(tail, Escaping) == [tail[0]] + RepairFrom(body[2..], Inside);
      assert ReadsAll(tail, Escaping) == ReadsAll(body[2..], Inside);
    }
  }

  lemma {:induction false} RewritesQuoted(body: string)
    requires IsBody(body)
    ensures Rewrites(Quoted(body), Quoted(EscapeBody(body)))
  {
    RepairBody(body);
    RepairConcat("\"", body, Outside);
    RepairConcat("\"" + body, "\"", Outside);
    assert RepairFrom("\"", Outside) == "\"" + RepairFrom("", Inside);
    assert RepairFrom("\"", Inside) == "\"" + RepairFrom("", Outside);
  }

  lemma {:induction false} RewritesValue(v: Value)
    requires WellFormed(v)
    ensures Rewrites(Print(v), Print(Escaped(v)))
    decreases v
  {
    hide Rewrites, IsBody;
    match v
    case Scalar(text) => RewritesPlain(text);
    case Str(body) => RewritesQuoted(body);
    case Arr(pad, items) =>
      RewritesItems(items);
      RewritesPlain("[" + pad);
      RewritesPlain("]");
      RewritesConcat("[" + pad, "[" + pad, PrintItems(items), PrintItems(EscapedItems(items)));
      RewritesConcat("[" + pad + PrintItems(items), "[" + pad + PrintItems(EscapedItems(items)), "]", "]");
    case Obj(pad, members) =>
      RewritesMembers(members);
      RewritesPlain("{" + pad);
      RewritesPlain("}");
      RewritesConcat("{" + pad, "{" + pad, PrintMembers(members), PrintMembers(EscapedMembers(members)));
      RewritesConcat("{" + pad + PrintMembers(members), "{" + pad + PrintMembers(EscapedMembers(members)), "}", "}");
  }

  /** Four stretches in a row. */
  lemma {:induction false} RewritesFour(a: string, a': string, b: string, b': string, c: string, d: string, d': string)
    requires Rewrites(a, a') && Rewrites(b, b') && Rewrites(c, c) && Rewrites(d, d')
    ensures Rewrites(a + b + c + d, a' + b' + c + d')
  {
    hide Rewrites;
    RewritesConcat(a, a', b, b');
    RewritesConcat(a + b, a' + b', c, c);
    RewritesConcat(a + b + c, a' + b' + c, d, d');
  }

  lemma {:induction false} RewritesItems(xs: Items)
    requires WellFormedItems(xs)
    ensures Rewrites(PrintItems(xs), PrintItems(EscapedItems(xs)))
    decreases xs
  {
    if xs.NoItems? {
      RewritesPlain("");
    } else {
      RewritesItem(xs);
    }
  }

  lemma {:induction false} RewritesItem(xs: Items)
    requires xs.Item? && WellFormedItems(xs)
    ensures Rewrites(PrintItems(xs), PrintItems(EscapedItems(xs)))
    decreases xs, 0
  {
    hide Rewrites, IsBody;
    var more := if xs.rest.NoItems? then "" else "," + PrintItems(xs.rest);
    var more' := if xs.rest.NoItems? then "" else "," + PrintItems(EscapedItems(xs.rest));
    RewritesPlain(xs.pre);
    RewritesValue(xs.value);
    RewritesPlain(xs.post);
    RewritesPlain("");
    if xs.rest.Item? {
      RewritesPlain(",");
      RewritesItems(xs.rest);
      RewritesConcat(",", ",", PrintItems(xs.rest), PrintItems(EscapedItems(xs.rest)));
    }
    RewritesFour(xs.pre, xs.pre, Print(xs.value), Print(Escaped(xs.value)), xs.post, more, more');
  }

  lemma {:induction false} RewritesMembers(ms: Members)
    requires WellFormedMembers(ms)
    ensures Rewrites(PrintMembers(ms), PrintMembers(EscapedMembers(ms)))
    decreases ms
  {
    if ms.NoMembers? {
      RewritesPlain("");
    } else {
      RewritesMember(ms);
    }
  }

  lemma {:induction false} RewritesMember(ms: Members)
    requires ms.Member? && WellFormedMembers(ms)
    ensures Rewrites(PrintMembers(ms), PrintMembers(EscapedMembers(ms)))
    decreases ms, 0
  {
    hide Rewrites, IsBody, Label;
    var more := if ms.rest.NoMembers? then "" else "," + PrintMembers(ms.rest);
    var more' := if ms.rest.NoMembers? then "" else "," + PrintMembers(EscapedMembers(ms.rest));
    RewritesLabel(ms.pre, ms.key, ms.mid, ms.aft);
    RewritesValue(ms.value);
    RewritesPlain(ms.post);
    RewritesPlain("");
    if ms.rest.Member? {
      RewritesPlain(",");
      RewritesMembers(ms.rest);
      RewritesConcat(",", ",", PrintMembers(ms.rest), PrintMembers(EscapedMembers(ms.rest)));
    }
    RewritesFour(Label(ms.pre, ms.key, ms.mid, ms.aft), Label(ms.pre, EscapeBody(ms.key), ms.mid, ms.aft),
                 Print(ms.value), Print(Escaped(ms.value)), ms.post, more, more');
  }

  lemma {:induction false} RewritesLabel(pre: string, key: string, mid: string, aft: string)
    requires AllSpace(pre) && IsBody(key) && AllSpace(mid) && AllSpace(aft)
    ensures Rewrites(Label(pre, key, mid, aft), Label(pre, EscapeBody(key), mid, aft))
  {
    hide Rewrites, IsBody;
    RewritesPlain(pre);
    RewritesQuoted(key);
    RewritesPlain(mid);
    RewritesPlain(":");
    RewritesPlain(aft);
    RewritesFour(pre, pre, Quoted(key), Quoted(EscapeBody(key)), mid, ":", ":");
    RewritesConcat(pre + Quoted(key) + mid + ":", pre + Quoted(EscapeBody(key)) + mid + ":", aft, aft);
  }

  /** The retry text for a JSON value is the same value with its strings' raw control characters escaped. */
  lemma {:induction false} RepairOfPrinted(v: Value)
    requires WellFormed(v)
    ensures RepairControlChars(Print(v)) == Print(Escaped(v))
  {
    RewritesValue(v);
  }
}
