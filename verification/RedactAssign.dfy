/** Redaction of `name = value` text in captured frames (internal/admin/capture_redact.go). What counts
    as a secret name is the argument `secret`. */
module RedactAssign {
  import opened Options
  import opened JsonText

  const MARKER := "[REDACTED]"
  const NO_QUOTE: char := '\0'

  /** `value[start..end]` is to be replaced. */
  datatype Span = Span(start: nat, end: nat, replacement: string)

  predicate IsQuote(c: char) {
    c == '"' || c == '\''
  }

  predicate IsNameStart(c: char) {
    'A' <= c <= 'Z' || 'a' <= c <= 'z'
  }

  predicate IsNamePart(c: char) {
    IsNameStart(c) || '0' <= c <= '9' || c == '_' || c == '-'
  }

  predicate IsDelimiter(c: char) {
    IsSpace(c) || c == '&' || c == ',' || c == ';' || c == '}' || c == ']'
  }

  /** The first index from `i` on whose character fails `p`, or the end. */
  function SkipWhile(value: string, i: nat, p: char -> bool): (r: nat)
    requires i <= |value|
    ensures i <= r <= |value| && (forall k :: i <= k < r ==> p(value[k])) && (r < |value| ==> !p(value[r]))
    decreases |value| - i
  {
    if i < |value| && p(value[i]) then SkipWhile(value, i + 1, p) else i
  }

  method Skip(value: string, i: nat, p: char -> bool) returns (r: nat)
    requires i <= |value|
    ensures r == SkipWhile(value, i, p)
  {
    r := i;
    while r < |value| && p(value[r])
      invariant i <= r <= |value| && SkipWhile(value, r, p) == SkipWhile(value, i, p)
    {
      r := r + 1;
    }
  }

  function LineEnd(value: string, start: nat): (r: nat)
    requires start <= |value|
    ensures start <= r <= |value|
  {
    SkipWhile(value, start, c => c != '\r' && c != '\n')
  }

  // ---------------------------------------------------------------- value boundaries

  /** Past the closing quote, every backslash taking the next character with it. */
  function QuoteEnd(value: string, i: nat, quote: char): (r: Option<nat>)
    ensures r.Some? ==> i < r.value <= |value|
    decreases if i < |value| then |value| - i else 0
  {
    if i >= |value| then None
    else if value[i] == '\\' then QuoteEnd(value, i + 2, quote)
    else if value[i] == quote then Some(i + 1)
    else QuoteEnd(value, i + 1, quote)
  }

  /** Past the bracket that empties the stack; none when a bracket does not match or the text ends. */
  function StructEnd(value: string, i: nat, stack: seq<char>, quote: char): (r: Option<nat>)
    requires |stack| > 0
    ensures r.Some? ==> i < r.value <= |value|
    decreases if i < |value| then |value| - i else 0
  {
    if i >= |value| then None
    else
      var c := value[i];
      if quote != NO_QUOTE then
        if c == '\\' then StructEnd(value, i + 2, stack, quote)
        else StructEnd(value, i + 1, stack, if c == quote then NO_QUOTE else quote)
      else if IsQuote(c) then StructEnd(value, i + 1, stack, c)
      else if c == '{' || c == '[' then StructEnd(value, i + 1, stack + [c], NO_QUOTE)
      else if c == '}' || c == ']' then
        if stack[|stack| - 1] != (if c == ']' then '[' else '{') then None
        else if |stack| == 1 then Some(i + 1)
        else StructEnd(value, i + 1, stack[..|stack| - 1], NO_QUOTE)
      else StructEnd(value, i + 1, stack, NO_QUOTE)
  }

  function AssignSpan(value: string, start: nat): (r: Span)
    requires start <= |value|
    ensures r.start == start <= r.end <= |value|
  {
    if start == |value| then Span(start, start, MARKER)
    else
      var c := value[start];
      if IsQuote(c) then
        match QuoteEnd(value, start + 1, c)
        case Some(end) => Span(start, end, [c] + MARKER + [c])
        case None => Span(start, LineEnd(value, start), [c] + MARKER)
      else if c == '{' || c == '[' then
        match StructEnd(value, start + 1, [c], NO_QUOTE)
        case Some(end) => Span(start, end, MARKER)
        case None => Span(start, LineEnd(value, start), MARKER)
      else Span(start, SkipWhile(value, start, c => !IsDelimiter(c)), MARKER)
  }

  method StructuredAssignmentValue(value: string, start: nat) returns (end: nat, replacement: string)
    requires start < |value| && (value[start] == '{' || value[start] == '[')
    ensures Span(start, end, replacement) == AssignSpan(value, start)
  {
    var lineEnd := Skip(value, start, c => c != '\r' && c != '\n');
    var stack := [value[start]];
    var quote := NO_QUOTE;
    var index := start + 1;
    while index < |value|
      invariant start < index && |stack| > 0
      invariant StructEnd(value, index, stack, quote) == StructEnd(value, start + 1, [value[start]], NO_QUOTE)
    {
      var c := value[index];
      if quote != NO_QUOTE {
        if c == '\\' {
          index := index + 2;
          continue;
        }
        if c == quote {
          quote := NO_QUOTE;
        }
        index := index + 1;
        continue;
      }
      if IsQuote(c) {
        quote := c;
      } else if c == '{' || c == '[' {
        stack := stack + [c];
      } else if c == '}' || c == ']' {
        var want := if c == ']' then '[' else '{';
        if stack[|stack| - 1] != want {
          return lineEnd, MARKER;
        }
        if |stack| == 1 {
          return index + 1, MARKER;
        }
        stack := stack[..|stack| - 1];
      }
      index := index + 1;
    }
    return lineEnd, MARKER;
  }

  method AssignmentValue(value: string, start: nat) returns (end: nat, replacement: string)
    requires start <= |value|
    ensures Span(start, end, replacement) == AssignSpan(value, start)
  {
    if start >= |value| {
      return start, MARKER;
    }
    var quote := value[start];
    if IsQuote(quote) {
      var index := start + 1;
      while index < |value|
        invariant QuoteEnd(value, index, quote) == QuoteEnd(value, start + 1, quote)
      {
        if value[index] == '\\' {
          index := index + 2;
          continue;
        }
        if value[index] == quote {
          return index + 1, [quote] + MARKER + [quote];
        }
        index := index + 1;
      }
      end := Skip(value, start, c => c != '\r' && c != '\n');
      return end, [quote] + MARKER;
    }
    if quote == '{' || quote == '[' {
      end, replacement := StructuredAssignmentValue(value, start);
      return;
    }
    end := Skip(value, start, c => !IsDelimiter(c));
    replacement := MARKER;
  }

  // ---------------------------------------------------------------- printed values

  predicate Plain(s: string) {
    forall i :: 0 <= i < |s| ==> !IsQuote(s[i]) && s[i] != '{' && s[i] != '[' && s[i] != '}' && s[i] != ']'
  }

  lemma {:induction false} PassPlain(t: string, i: nat, s: string, stack: seq<char>)
    requires At(t, i, s) && Plain(s) && |stack| > 0
    ensures StructEnd(t, i, stack, NO_QUOTE) == StructEnd(t, i + |s|, stack, NO_QUOTE)
    decreases |s|
  {
    if s == "" {
    } else {
      AtChar(t, i, s, 0);
      assert s == s[..1] + s[1..];
      AtConcat(t, i, s[..1], s[1..]);
      PassPlain(t, i + 1, s[1..], stack);
    }
  }

  lemma {:induction false} PassBody(t: string, i: nat, body: string, stack: seq<char>)
    requires At(t, i, body) && IsBody(body) && |stack| > 0
    ensures StructEnd(t, i, stack, '"') == StructEnd(t, i + |body|, stack, '"')
    ensures QuoteEnd(t, i, '"') == QuoteEnd(t, i + |body|, '"')
    decreases |body|
  {
    if body == "" {
    } else {
      AtChar(t, i, body, 0);
      var k := if body[0] == '\\' then 2 else 1;
      assert body == body[..k] + body[k..];
      AtConcat(t, i, body[..k], body[k..]);
      PassBody(t, i + k, body[k..], stack);
    }
  }

  lemma {:induction false} PassQuoted(t: string, i: nat, body: string, stack: seq<char>)
    requires At(t, i, Quoted(body)) && IsBody(body) && |stack| > 0
    ensures StructEnd(t, i, stack, NO_QUOTE) == StructEnd(t, i + |body| + 2, stack, NO_QUOTE)
    ensures t[i] == '"' && QuoteEnd(t, i + 1, '"') == Some(i + |body| + 2)
  {
    hide At, IsBody;
    QuotedLayout(t, i, body);
    PassBody(t, i + 1, body, stack);
    AtInside(t, i, Quoted(body));
  }

  lemma {:induction false} PassChar(t: string, i: nat, c: char, stack: seq<char>)
    requires At(t, i, [c]) && |stack| > 0 && Plain([c])
    ensures StructEnd(t, i, stack, NO_QUOTE) == StructEnd(t, i + 1, stack, NO_QUOTE)
  {
    AtChar(t, i, [c], 0);
  }

  /** Between its brackets a printed value leaves the stack as it found it. */
  lemma {:induction false} PassValue(t: string, i: nat, v: Value, stack: seq<char>)
    requires WellFormed(v) && At(t, i, Print(v)) && |stack| > 0
    ensures StructEnd(t, i, stack, NO_QUOTE) == StructEnd(t, i + |Print(v)|, stack, NO_QUOTE)
    decreases v, 1
  {
    match v
    case Scalar(text) => PassPlain(t, i, text, stack);
    case Str(body) => PassQuoted(t, i, body, stack);
    case _ =>
      var close := i + |Print(v)| - 1;
      var open := if v.Arr? then '[' else '{';
      PassInside(t, i, v, stack + [open]);
      assert (stack + [open])[..|stack|] == stack;
  }

  lemma {:induction false} PassInside(t: string, i: nat, v: Value, stack: seq<char>)
    requires WellFormed(v) && At(t, i, Print(v)) && (v.Arr? || v.Obj?) && |stack| > 0
    ensures i + |Print(v)| <= |t| && |Print(v)| >= 2 && t[i] == (if v.Arr? then '[' else '{')
    ensures t[i + |Print(v)| - 1] == (if v.Arr? then ']' else '}')
    ensures StructEnd(t, i + 1, stack, NO_QUOTE) == StructEnd(t, i + |Print(v)| - 1, stack, NO_QUOTE)
    decreases v, 0
  {
    hide StructEnd, At, Print, PrintItems, PrintMembers;
    InsideLayout(t, i, v);
    SpacesArePlain(v.pad);
    PassPlain(t, i + 1, v.pad, stack);
    if v.Arr? {
      PassItems(t, i + 1 + |v.pad|, v.items, stack);
    } else {
      PassMembers(t, i + 1 + |v.pad|, v.members, stack);
    }
  }

  lemma {:induction false} SpacesArePlain(s: string)
    requires AllSpace(s)
    ensures Plain(s)
  {
  }

  lemma {:induction false} PassItems(t: string, i: nat, xs: Items, stack: seq<char>)
    requires WellFormedItems(xs) && At(t, i, PrintItems(xs)) && |stack| > 0
    ensures StructEnd(t, i, stack, NO_QUOTE) == StructEnd(t, i + |PrintItems(xs)|, stack, NO_QUOTE)
    decreases xs, 0
  {
    hide StructEnd, At, Print;
    if xs.Item? {
      ItemsLayout(t, i, xs);
      SpacesArePlain(xs.pre);
      SpacesArePlain(xs.post);
      PassPlain(t, i, xs.pre, stack);
      PassValue(t, i + |xs.pre|, xs.value, stack);
      var j := i + |xs.pre| + |Print(xs.value)|;
      PassPlain(t, j, xs.post, stack);
      if xs.rest.Item? {
        PassChar(t, j + |xs.post|, ',', stack);
        PassItems(t, j + |xs.post| + 1, xs.rest, stack);
      }
    }
  }

  lemma {:induction false} PassMembers(t: string, i: nat, ms: Members, stack: seq<char>)
    requires WellFormedMembers(ms) && At(t, i, PrintMembers(ms)) && |stack| > 0
    ensures StructEnd(t, i, stack, NO_QUOTE) == StructEnd(t, i + |PrintMembers(ms)|, stack, NO_QUOTE)
    decreases ms, 0
  {
    hide StructEnd, At, Print, Label;
    if ms.Member? {
      var name := Label(ms.pre, ms.key, ms.mid, ms.aft);
      MembersLayout(t, i, ms);
      SpacesArePlain(ms.post);
      PassLabel(t, i, ms, stack);
      PassValue(t, i + |name|, ms.value, stack);
      var j := i + |name| + |Print(ms.value)|;
      PassPlain(t, j, ms.post, stack);
      if ms.rest.Member? {
        PassChar(t, j + |ms.post|, ',', stack);
        PassMembers(t, j + |ms.post| + 1, ms.rest, stack);
      }
    }
  }

  lemma {:induction false} PassLabel(t: string, i: nat, ms: Members, stack: seq<char>)
    requires ms.Member? && WellFormedMembers(ms) && At(t, i, Label(ms.pre, ms.key, ms.mid, ms.aft)) && |stack| > 0
    ensures StructEnd(t, i, stack, NO_QUOTE)
         == StructEnd(t, i + |Label(ms.pre, ms.key, ms.mid, ms.aft)|, stack, NO_QUOTE)
  {
    hide StructEnd, At, Label, Quoted, QuoteEnd, IsBody;
    LabelLayout(t, i, ms.pre, ms.key, ms.mid, ms.aft);
    SpacesArePlain(ms.pre);
    SpacesArePlain(ms.mid);
    SpacesArePlain(ms.aft);
    PassPlain(t, i, ms.pre, stack);
    PassQuoted(t, i + |ms.pre|, ms.key, stack);
    var j := i + |ms.pre| + |ms.key| + 2;
    PassPlain(t, j, ms.mid, stack);
    PassChar(t, j + |ms.mid|, ':', stack);
    PassPlain(t, j + |ms.mid| + 1, ms.aft, stack);
  }

  /** Main boundary result: a printed string, array or object is replaced exactly, whatever follows it;
      a scalar too, when the text ends there or a delimiter follows. */
  lemma {:induction false} PrintedValueIsTheSpan(before: string, v: Value, after: string)
    requires WellFormed(v) && (v.Scalar? ==> after == "" || IsDelimiter(after[0]))
    ensures
      var t := before + Print(v) + after;
      AssignSpan(t, |before|)
        == Span(|before|, |before| + |Print(v)|, if v.Str? then "\"" + MARKER + "\"" else MARKER)
  {
    hide StructEnd, QuoteEnd;
    var t := before + Print(v) + after;
    var i := |before|;
    assert t[i..i + |Print(v)|] == Print(v);
    match v
    case Scalar(text) => ScalarSpan(t, i, text);
    case Str(body) => PassQuoted(t, i, body, ['{']);
    case _ => BracketSpan(t, i, v);
  }

  lemma {:induction false} ScalarSpan(t: string, i: nat, text: string)
    requires IsScalar(text) && At(t, i, text) && (i + |text| == |t| || IsDelimiter(t[i + |text|]))
    ensures AssignSpan(t, i) == Span(i, i + |text|, MARKER)
  {
    hide StructEnd, QuoteEnd;
    forall k | i <= k < i + |text| ensures !IsDelimiter(t[k]) {
      AtChar(t, i, text, k - i);
    }
    AtChar(t, i, text, 0);
    var end := SkipWhile(t, i, c => !IsDelimiter(c));
  }

  lemma {:induction false} BracketSpan(t: string, i: nat, v: Value)
    requires WellFormed(v) && At(t, i, Print(v)) && (v.Arr? || v.Obj?)
    ensures AssignSpan(t, i) == Span(i, i + |Print(v)|, MARKER)
  {
    hide At, Print;
    PassInside(t, i, v, [if v.Arr? then '[' else '{']);
  }

  // ---------------------------------------------------------------- the assignments of a text

  /** A name begins at `n`: a letter that does not continue a longer name. */
  predicate NameAt(value: string, n: nat) {
    n < |value| && IsNameStart(value[n]) && (n == 0 || !IsNamePart(value[n - 1]))
  }

  function NameEnd(value: string, n: nat): (e: nat)
    requires NameAt(value, n)
    ensures n < e <= |value|
  {
    SkipWhile(value, n + 1, IsNamePart)
  }

  /** Where the value starts after a name ending at `e`: an optional quote, then `:` or `=`, with any
      space around them. */
  function ValueStart(value: string, e: nat): (r: Option<nat>)
    requires e <= |value|
    ensures r.Some? ==> e < r.value <= |value|
  {
    var s := SkipWhile(value, e, IsSpace);
    var s := if s < |value| && IsQuote(value[s]) then SkipWhile(value, s + 1, IsSpace) else s;
    if s < |value| && (value[s] == ':' || value[s] == '=') then Some(SkipWhile(value, s + 1, IsSpace)) else None
  }

  /** The value start of the secret assignment whose name begins at `n`, if there is one. */
  function SecretAt(value: string, n: nat, secret: string -> bool): (r: Option<nat>)
    ensures r.Some? ==> n < r.value <= |value|
  {
    if NameAt(value, n) && secret(value[n..NameEnd(value, n)]) then ValueStart(value, NameEnd(value, n)) else None
  }

  /** The value of the secret assignment whose name begins at `n`. */
  function Own(value: string, n: nat, secret: string -> bool): (r: Span)
    requires SecretAt(value, n, secret).Some?
    ensures n < r.start <= r.end <= |value|
  {
    AssignSpan(value, SecretAt(value, n, secret).value)
  }

  function Spans(value: string, i: nat, secret: string -> bool): seq<Span>
    requires i <= |value|
    decreases |value| - i
  {
    if i == |value| then []
    else if !NameAt(value, i) then Spans(value, i + 1, secret)
    else match SecretAt(value, i, secret)
      case None => Spans(value, NameEnd(value, i), secret)
      case Some(start) =>
        var span := AssignSpan(value, start);
        [span] + Spans(value, span.end, secret)
  }

  /** Disjoint spans in text order. */
  predicate Ordered(spans: seq<Span>, from: nat, limit: nat) {
    spans == [] || (from <= spans[0].start <= spans[0].end <= limit && Ordered(spans[1..], spans[0].end, limit))
  }

  /** `value` from `written` on with the spans replaced and everything else kept. */
  function Splice(value: string, written: nat, spans: seq<Span>): string
    requires written <= |value| && Ordered(spans, written, |value|)
    decreases |spans|
  {
    if spans == [] then value[written..]
    else value[written..spans[0].start] + spans[0].replacement + Splice(value, spans[0].end, spans[1..])
  }

  lemma {:induction false} SpansOrdered(value: string, i: nat, from: nat, secret: string -> bool)
    requires from <= i <= |value|
    ensures Ordered(Spans(value, i, secret), from, |value|)
    decreases |value| - i
  {
    if i < |value| {
      if !NameAt(value, i) {
        SpansOrdered(value, i + 1, from, secret);
      } else if SecretAt(value, i, secret).None? {
        SpansOrdered(value, NameEnd(value, i), from, secret);
      } else {
        var span := Own(value, i, secret);
        SpansOrdered(value, span.end, span.end, secret);
        assert Spans(value, i, secret)[1..] == Spans(value, span.end, secret);
      }
    }
  }

  /** One turn of the loop below: the index to go on from and, after a secret name with a separator,
      where its value starts. */
  method NextName(value: string, index: nat, secret: string -> bool) returns (next: nat, start: Option<nat>)
    requires index < |value|
    ensures next == (if NameAt(value, index) then NameEnd(value, index) else index + 1) <= |value|
    ensures start == SecretAt(value, index, secret)
  {
    hide SkipWhile, ValueStart;
    if !IsNameStart(value[index]) || (index > 0 && IsNamePart(value[index - 1])) {
      return index + 1, None;
    }
    next := Skip(value, index + 1, IsNamePart);
    if !secret(value[index..next]) {
      return next, None;
    }
    start := PassSeparator(value, next);
  }

  method PassSeparator(value: string, e: nat) returns (start: Option<nat>)
    requires e <= |value|
    ensures start == ValueStart(value, e)
  {
    hide SkipWhile;
    var separator := Skip(value, e, IsSpace);
    if separator < |value| && IsQuote(value[separator]) {
      separator := Skip(value, separator + 1, IsSpace);
    }
    if separator >= |value| || (value[separator] != ':' && value[separator] != '=') {
      return None;
    }
    separator := Skip(value, separator + 1, IsSpace);
    return Some(separator);
  }

  /** The builder loop: terminates on every text and replaces exactly the spans. */
  method RedactNamedAssignments(value: string, secret: string -> bool) returns (out: string)
    ensures Ordered(Spans(value, 0, secret), 0, |value|)
    ensures out == Splice(value, 0, Spans(value, 0, secret))
  {
    hide AssignSpan, Spans, Splice, Ordered, SecretAt, NameAt, NameEnd;
    SpansOrdered(value, 0, 0, secret);
    out := "";
    var written: nat, index: nat := 0, 0;
    while index < |value|
      invariant written <= index <= |value| && Ordered(Spans(value, index, secret), written, |value|)
      invariant out + Splice(value, written, Spans(value, index, secret)) == Splice(value, 0, Spans(value, 0, secret))
      decreases |value| - index
    {
      SpansUnfold(value, index, secret);
      var next, start := NextName(value, index, secret);
      if start.None? {
        index := next;
        continue;
      }
      var valueEnd, replacement := AssignmentValue(value, start.value);
      SpliceHead(value, written, Span(start.value, valueEnd, replacement), Spans(value, valueEnd, secret));
      out := out + (value[written..start.value] + replacement);
      written, index := valueEnd, valueEnd;
    }
    SpliceEnd(value, written, secret);
    out := out + value[written..];
  }

  lemma {:induction false} SpansUnfold(value: string, i: nat, secret: string -> bool)
    requires i < |value|
    ensures
      var next := if NameAt(value, i) then NameEnd(value, i) else i + 1;
      && i < next <= |value|
      && match SecretAt(value, i, secret)
         case None => Spans(value, i, secret) == Spans(value, next, secret)
         case Some(start) =>
           && i < start
           && Spans(value, i, secret) == [AssignSpan(value, start)] + Spans(value, AssignSpan(value, start).end, secret)
  {
  }

  lemma {:induction false} SpliceHead(value: string, written: nat, span: Span, rest: seq<Span>)
    requires written <= |value| && Ordered([span] + rest, written, |value|)
    ensures written <= span.start <= span.end <= |value| && Ordered(rest, span.end, |value|)
    ensures Splice(value, written, [span] + rest)
         == value[written..span.start] + span.replacement + Splice(value, span.end, rest)
  {
    assert ([span] + rest)[1..] == rest;
  }

  lemma {:induction false} SpliceEnd(value: string, written: nat, secret: string -> bool)
    requires written <= |value|
    ensures Spans(value, |value|, secret) == [] && Splice(value, written, []) == value[written..]
  {
  }

  // ---------------------------------------------------------------- nothing missed, nothing else touched

  /** Between a name and its value there is no other name. */
  lemma {:induction false} NoNameInSeparator(value: string, e: nat, k: nat)
    requires e <= k < |value| && ValueStart(value, e).Some? && k < ValueStart(value, e).value
    ensures !IsNameStart(value[k])
  {
  }

  /** `span` is the value of the assignment named at `n`, or the name itself lies inside it. */
  predicate Covers(value: string, secret: string -> bool, n: nat, span: Span)
    requires SecretAt(value, n, secret).Some?
  {
    span == Own(value, n, secret) || span.start <= n < span.end
  }

  /** Every secret assignment has its value replaced or its name inside a replaced value. */
  lemma {:induction false} EverySecretIsTouched(value: string, i: nat, secret: string -> bool, n: nat)
    requires i <= n && SecretAt(value, n, secret).Some? && i <= |value|
    ensures exists k :: 0 <= k < |Spans(value, i, secret)| && Covers(value, secret, n, Spans(value, i, secret)[k])
    decreases |value| - i
  {
    hide AssignSpan, Spans, SecretAt, NameAt, NameEnd, Covers;
    SecretInside(value, n, secret);
    SpansUnfold(value, i, secret);
    match SecretAt(value, i, secret)
    case None =>
      NextStaysBefore(value, i, n, secret);
      EverySecretIsTouched(value, if NameAt(value, i) then NameEnd(value, i) else i + 1, secret, n);
    case Some(start) =>
      var span := AssignSpan(value, start);
      var rest := Spans(value, span.end, secret);
      if span.end <= n {
        EverySecretIsTouched(value, span.end, secret, n);
        var k :| 0 <= k < |rest| && Covers(value, secret, n, rest[k]);
        assert Spans(value, i, secret)[k + 1] == rest[k];
      } else {
        HeadCovers(value, i, n, secret);
        assert Spans(value, i, secret)[0] == span;
      }
  }

  lemma {:induction false} SecretInside(value: string, n: nat, secret: string -> bool)
    requires SecretAt(value, n, secret).Some?
    ensures n < |value|
  {
  }

  /** A later name does not begin inside an earlier one. */
  lemma {:induction false} NameIsWhole(value: string, i: nat, n: nat)
    requires NameAt(value, i) && NameAt(value, n) && i < n
    ensures NameEnd(value, i) <= n
  {
    var e := NameEnd(value, i);
    assert forall k :: i <= k < e ==> IsNamePart(value[k]);
  }

  lemma {:induction false} NextStaysBefore(value: string, i: nat, n: nat, secret: string -> bool)
    requires i <= n && SecretAt(value, i, secret).None? && SecretAt(value, n, secret).Some?
    ensures (if NameAt(value, i) then NameEnd(value, i) else i + 1) <= n
  {
    if NameAt(value, i) {
      NameIsWhole(value, i, n);
    }
  }

  /** The first span covers every name up to its end. */
  lemma {:induction false} HeadCovers(value: string, i: nat, n: nat, secret: string -> bool)
    requires i <= n && SecretAt(value, i, secret).Some? && SecretAt(value, n, secret).Some?
    requires n < Own(value, i, secret).end
    ensures Covers(value, secret, n, Own(value, i, secret))
  {
    hide AssignSpan, SkipWhile;
    if i < n {
      NameIsWhole(value, i, n);
      var start := SecretAt(value, i, secret).value;
      if n < start {
        NoNameInSeparator(value, NameEnd(value, i), n);
      }
    }
  }

  /** Every replaced span is the value of a secret assignment. */
  lemma {:induction false} OnlySecretsAreReplaced(value: string, i: nat, secret: string -> bool, k: nat)
    requires i <= |value| && k < |Spans(value, i, secret)|
    ensures exists n :: i <= n < |value| && IsValueOf(value, n, secret, Spans(value, i, secret)[k])
    decreases |value| - i
  {
    hide AssignSpan, Spans, SecretAt, NameAt, NameEnd;
    if i == |value| {
      SpliceEnd(value, i, secret);
    } else {
      SpansUnfold(value, i, secret);
      match SecretAt(value, i, secret)
      case None =>
        OnlySecretsAreReplaced(value, if NameAt(value, i) then NameEnd(value, i) else i + 1, secret, k);
      case Some(start) =>
        var span := AssignSpan(value, start);
        if k == 0 {
          assert IsValueOf(value, i, secret, Spans(value, i, secret)[k]);
        } else {
          OnlySecretsAreReplaced(value, span.end, secret, k - 1);
          assert Spans(value, i, secret)[k] == Spans(value, span.end, secret)[k - 1];
        }
    }
  }

  /** `span` is the value of the secret assignment whose name begins at `n`. */
  predicate IsValueOf(value: string, n: nat, secret: string -> bool, span: Span) {
    SecretAt(value, n, secret).Some? && span == Own(value, n, secret)
  }

  // ---------------------------------------------------------------- exactly which values are replaced

  /** Index `p` lies in a replaced value. */
  predicate Replaced(spans: seq<Span>, p: nat) {
    exists k :: 0 <= k < |spans| && spans[k].start <= p < spans[k].end
  }

  /** After span `k` the scan goes on where that span ends. */
  lemma {:induction false} SpansAfter(value: string, i: nat, secret: string -> bool, k: nat)
    requires i <= |value| && k < |Spans(value, i, secret)|
    ensures
      var end := Spans(value, i, secret)[k].end;
      i < end <= |value| && Spans(value, i, secret)[k + 1..] == Spans(value, end, secret)
    decreases |value| - i
  {
    hide AssignSpan, Spans, SecretAt, NameAt, NameEnd;
    if i == |value| {
      SpliceEnd(value, i, secret);
    } else {
      SpansUnfold(value, i, secret);
      match SecretAt(value, i, secret)
      case None => SpansAfter(value, if NameAt(value, i) then NameEnd(value, i) else i + 1, secret, k);
      case Some(start) =>
        var span := AssignSpan(value, start);
        var rest := Spans(value, span.end, secret);
        assert ([span] + rest)[1..] == rest;
        if k > 0 {
          SpansAfter(value, span.end, secret, k - 1);
          assert ([span] + rest)[k + 1..] == rest[k..];
        }
    }
  }

  lemma {:induction false} SpansInOrder(value: string, i: nat, secret: string -> bool, j: nat, k: nat)
    requires i <= |value| && j < k < |Spans(value, i, secret)|
    ensures Spans(value, i, secret)[j].end <= Spans(value, i, secret)[k].start <= Spans(value, i, secret)[k].end
  {
    hide Spans, Ordered;
    SpansAfter(value, i, secret, j);
    var end := Spans(value, i, secret)[j].end;
    var rest := Spans(value, end, secret);
    assert rest[k - j - 1] == Spans(value, i, secret)[k];
    SpansOrdered(value, end, end, secret);
    OrderedAt(rest, end, |value|, k - j - 1);
  }

  lemma {:induction false} OrderedAt(spans: seq<Span>, from: nat, limit: nat, k: nat)
    requires Ordered(spans, from, limit) && k < |spans|
    ensures from <= spans[k].start <= spans[k].end <= limit
  {
    if k == 0 {
    } else {
      OrderedAt(spans[1..], spans[0].end, limit, k - 1);
    }
  }

  /** Between a secret name and its value no other assignment begins. */
  lemma {:induction false} NoNameBeforeValue(value: string, n: nat, n': nat, secret: string -> bool)
    requires SecretAt(value, n, secret).Some? && NameAt(value, n') && n < n'
    ensures Own(value, n, secret).start <= n'
  {
    hide AssignSpan, SkipWhile;
    NameIsWhole(value, n, n');
    if n' < SecretAt(value, n, secret).value {
      NoNameInSeparator(value, NameEnd(value, n), n');
    }
  }

  /** A later replaced value belongs to a name after the end of an earlier one. */
  lemma {:induction false} LaterSpan(value: string, secret: string -> bool, j: nat, k: nat)
    requires j < k < |Spans(value, 0, secret)|
    ensures exists n :: Spans(value, 0, secret)[j].end <= n && IsValueOf(value, n, secret, Spans(value, 0, secret)[k])
  {
    hide Spans, IsValueOf;
    SpansAfter(value, 0, secret, j);
    var end := Spans(value, 0, secret)[j].end;
    assert Spans(value, end, secret)[k - j - 1] == Spans(value, 0, secret)[k];
    OnlySecretsAreReplaced(value, end, secret, k - j - 1);
  }

  /** A value whose name lies in replaced span `k` is no replaced span itself. */
  lemma {:induction false} InsideIsNotReplaced(value: string, secret: string -> bool, n: nat, k: nat)
    requires SecretAt(value, n, secret).Some? && k < |Spans(value, 0, secret)|
    requires Spans(value, 0, secret)[k].start <= n < Spans(value, 0, secret)[k].end
    ensures Own(value, n, secret) !in Spans(value, 0, secret)
  {
    hide Spans, AssignSpan, SecretAt, NameAt;
    var spans := Spans(value, 0, secret);
    forall j | 0 <= j < |spans| ensures spans[j] != Own(value, n, secret) {
      if j < k {
        SpansInOrder(value, 0, secret, j, k);
      } else if k < j {
        LaterSpan(value, secret, k, j);
        var n' :| spans[k].end <= n' && IsValueOf(value, n', secret, spans[j]);
        SecretIsName(value, n', secret);
        NoNameBeforeValue(value, n, n', secret);
      }
    }
  }

  lemma {:induction false} SecretIsName(value: string, n: nat, secret: string -> bool)
    requires SecretAt(value, n, secret).Some?
    ensures NameAt(value, n)
  {
  }

  /** Main result on one assignment: its own value is replaced if and only if its name does not begin
      inside a replaced value. */
  lemma {:induction false} OwnValueIsReplacedExactly(value: string, n: nat, secret: string -> bool)
    requires SecretAt(value, n, secret).Some?
    ensures Own(value, n, secret) in Spans(value, 0, secret) <==> !Replaced(Spans(value, 0, secret), n)
  {
    hide Spans, AssignSpan, SecretAt;
    var spans := Spans(value, 0, secret);
    if k: nat :| k < |spans| && spans[k].start <= n < spans[k].end {
      InsideIsNotReplaced(value, secret, n, k);
    } else {
      EverySecretIsTouched(value, 0, secret, n);
      var k :| 0 <= k < |spans| && Covers(value, secret, n, spans[k]);
      assert spans[k] == Own(value, n, secret);
    }
  }

  /** A secret name begins inside the value of another secret assignment. */
  ghost predicate NamesOverlap(value: string, secret: string -> bool) {
    exists m, n :: NestedIn(value, secret, m, n)
  }

  predicate NestedIn(value: string, secret: string -> bool, m: nat, n: nat) {
    && SecretAt(value, m, secret).Some? && SecretAt(value, n, secret).Some?
    && Own(value, m, secret).start <= n < Own(value, m, secret).end
  }

  /** Main result on a text: the value of every secret assignment is replaced as such if and only if no
      secret name begins inside the value of another. */
  lemma {:induction false} EverySecretIsReplacedExactly(value: string, secret: string -> bool)
    ensures (forall n :: SecretAt(value, n, secret).Some? ==> Own(value, n, secret) in Spans(value, 0, secret))
            <==> !NamesOverlap(value, secret)
  {
    hide Spans, AssignSpan, SecretAt, Own;
    var spans := Spans(value, 0, secret);
    if m: nat, n: nat :| NestedIn(value, secret, m, n) {
      OwnValueIsReplacedExactly(value, n, secret);
      if Own(value, m, secret) in spans {
        assert Replaced(spans, n);
      }
    } else {
      forall n: nat | SecretAt(value, n, secret).Some? ensures Own(value, n, secret) in spans {
        OwnValueIsReplacedExactly(value, n, secret);
        if k: nat :| k < |spans| && spans[k].start <= n < spans[k].end {
          InsideIsNested(value, secret, n, k);
        }
      }
    }
  }

  lemma {:induction false} InsideIsNested(value: string, secret: string -> bool, n: nat, k: nat)
    requires SecretAt(value, n, secret).Some? && k < |Spans(value, 0, secret)|
    requires Spans(value, 0, secret)[k].start <= n < Spans(value, 0, secret)[k].end
    ensures NamesOverlap(value, secret)
  {
    hide Spans, AssignSpan, SecretAt, Own;
    SpanIsOwn(value, secret, k);
    var m :| 0 <= m < |value| && SecretAt(value, m, secret).Some?
             && Spans(value, 0, secret)[k] == Own(value, m, secret);
    assert NestedIn(value, secret, m, n);
  }

  lemma {:induction false} SpanIsOwn(value: string, secret: string -> bool, k: nat)
    requires k < |Spans(value, 0, secret)|
    ensures exists m :: 0 <= m < |value| && SecretAt(value, m, secret).Some?
                        && Spans(value, 0, secret)[k] == Own(value, m, secret)
  {
    hide Spans, AssignSpan, SecretAt;
    OnlySecretsAreReplaced(value, 0, secret, k);
    var m :| 0 <= m < |value| && IsValueOf(value, m, secret, Spans(value, 0, secret)[k]);
    assert Spans(value, 0, secret)[k] == Own(value, m, secret);
  }

  /** Nothing of the value of the assignment at `n` is written out. */
  predicate Hidden(value: string, n: nat, secret: string -> bool)
    requires SecretAt(value, n, secret).Some?
  {
    forall p :: Own(value, n, secret).start <= p < Own(value, n, secret).end ==> Replaced(Spans(value, 0, secret), p)
  }

  /** No replaced value the name begins in stops short of a value that is not empty. */
  predicate HiddenWhen(value: string, n: nat, secret: string -> bool)
    requires SecretAt(value, n, secret).Some?
  {
    var own, spans := Own(value, n, secret), Spans(value, 0, secret);
    forall k :: 0 <= k < |spans| && spans[k].start <= n < spans[k].end ==>
      own.end <= spans[k].end || own.start == own.end
  }

  /** Main result on what is written out: exactly when a secret value stays hidden. */
  lemma {:induction false} ValueIsHiddenExactly(value: string, n: nat, secret: string -> bool)
    requires SecretAt(value, n, secret).Some?
    ensures Hidden(value, n, secret) <==> HiddenWhen(value, n, secret)
  {
    hide Spans, AssignSpan, SecretAt, Own;
    var own, spans := Own(value, n, secret), Spans(value, 0, secret);
    OwnValueIsReplacedExactly(value, n, secret);
    if k: nat :| k < |spans| && spans[k].start <= n < spans[k].end {
      OneSpanHolds(value, secret, n, k);
      if own.end <= spans[k].end {
        forall p | own.start <= p < own.end ensures Replaced(spans, p) {
          assert spans[k].start <= p < spans[k].end;
        }
      } else if own.start < own.end {
        ValueSticksOut(value, secret, n, k);
      }
    } else {
      assert own in spans;
      var k :| 0 <= k < |spans| && spans[k] == own;
    }
  }

  /** No two replaced values share an index. */
  lemma {:induction false} OneSpanHolds(value: string, secret: string -> bool, n: nat, k: nat)
    requires k < |Spans(value, 0, secret)|
    requires Spans(value, 0, secret)[k].start <= n < Spans(value, 0, secret)[k].end
    ensures forall j :: 0 <= j < |Spans(value, 0, secret)| && j != k ==>
              !(Spans(value, 0, secret)[j].start <= n < Spans(value, 0, secret)[j].end)
  {
    hide Spans;
    forall j | 0 <= j < |Spans(value, 0, secret)| && j != k
      ensures !(Spans(value, 0, secret)[j].start <= n < Spans(value, 0, secret)[j].end)
    {
      if j < k {
        SpansInOrder(value, 0, secret, j, k);
      } else {
        SpansInOrder(value, 0, secret, k, j);
      }
    }
  }

  /** The first index of the value past the replaced one its name is in is written out. */
  lemma {:induction false} ValueSticksOut(value: string, secret: string -> bool, n: nat, k: nat)
    requires SecretAt(value, n, secret).Some? && k < |Spans(value, 0, secret)|
    requires Spans(value, 0, secret)[k].start <= n < Spans(value, 0, secret)[k].end < Own(value, n, secret).end
    requires Own(value, n, secret).start < Own(value, n, secret).end
    ensures !Hidden(value, n, secret)
  {
    hide Spans, AssignSpan, SecretAt, Own, NameAt;
    var own, spans := Own(value, n, secret), Spans(value, 0, secret);
    var p := if own.start < spans[k].end then spans[k].end else own.start;
    forall j | 0 <= j < |spans| ensures !(spans[j].start <= p < spans[j].end) {
      if j < k {
        SpansInOrder(value, 0, secret, j, k);
      } else if k < j {
        LaterSpan(value, secret, k, j);
        var n' :| spans[k].end <= n' && IsValueOf(value, n', secret, spans[j]);
        SecretIsName(value, n', secret);
        NoNameBeforeValue(value, n, n', secret);
        ValueAfterName(value, n', secret, spans[j]);
      }
    }
    assert !Replaced(spans, p);
  }

  lemma {:induction false} ValueAfterName(value: string, n: nat, secret: string -> bool, span: Span)
    requires IsValueOf(value, n, secret, span)
    ensures n < span.start
  {
  }

  /** Some secret value that the name at `n` begins inside reaches as far as the value of `n`. */
  ghost predicate Enclosed(value: string, secret: string -> bool, n: nat)
    requires SecretAt(value, n, secret).Some?
  {
    exists m :: NestedIn(value, secret, m, n) && Own(value, n, secret).end <= Own(value, m, secret).end
  }

  /** A condition on the text alone: a secret name that begins inside another secret value does so inside
      one that reaches as far as its own value, unless that is empty. */
  ghost predicate WellNested(value: string, secret: string -> bool) {
    forall m, n :: NestedIn(value, secret, m, n) && Own(value, n, secret).start < Own(value, n, secret).end ==>
      Enclosed(value, secret, n)
  }

  /** Main result on a text: no byte of any secret value is written out if and only if the secret values are
      well nested. */
  lemma {:induction false} AllHiddenExactly(value: string, secret: string -> bool)
    ensures (forall n :: SecretAt(value, n, secret).Some? ==> Hidden(value, n, secret)) <==> WellNested(value, secret)
  {
    hide Hidden, Own, SecretAt, Enclosed;
    if WellNested(value, secret) {
      forall n: nat | SecretAt(value, n, secret).Some? ensures Hidden(value, n, secret) {
        WellNestedHides(value, secret, n);
      }
    }
    if forall n :: SecretAt(value, n, secret).Some? ==> Hidden(value, n, secret) {
      forall m: nat, n: nat | NestedIn(value, secret, m, n) && Own(value, n, secret).start < Own(value, n, secret).end
        ensures Enclosed(value, secret, n)
      {
        NestedNames(value, secret, m, n);
        HiddenIsEnclosed(value, secret, m, n);
      }
    }
  }

  lemma {:induction false} NestedNames(value: string, secret: string -> bool, m: nat, n: nat)
    requires NestedIn(value, secret, m, n)
    ensures SecretAt(value, m, secret).Some? && SecretAt(value, n, secret).Some? && m < n
    ensures Own(value, m, secret).start <= n < Own(value, m, secret).end
  {
  }

  /** The replaced value that the name at `n` begins in, if any, encloses it. */
  lemma {:induction false} HiddenIsEnclosed(value: string, secret: string -> bool, m: nat, n: nat)
    requires NestedIn(value, secret, m, n) && Hidden(value, m, secret) && Hidden(value, n, secret)
    requires Own(value, n, secret).start < Own(value, n, secret).end
    ensures Enclosed(value, secret, n)
  {
    hide Spans, AssignSpan, SecretAt, Own, Hidden, Enclosed;
    var spans := Spans(value, 0, secret);
    OwnValueIsReplacedExactly(value, m, secret);
    ValueIsHiddenExactly(value, m, secret);
    ValueIsHiddenExactly(value, n, secret);
    if Own(value, m, secret) in spans {
      var k :| 0 <= k < |spans| && spans[k] == Own(value, m, secret);
      SpanEncloses(value, secret, k, n);
    } else {
      var k :| 0 <= k < |spans| && spans[k].start <= m < spans[k].end;
      SpanEncloses(value, secret, k, n);
    }
  }

  lemma {:induction false} SpanEncloses(value: string, secret: string -> bool, k: nat, n: nat)
    requires k < |Spans(value, 0, secret)| && SecretAt(value, n, secret).Some?
    requires Spans(value, 0, secret)[k].start <= n < Spans(value, 0, secret)[k].end
    requires Own(value, n, secret).end <= Spans(value, 0, secret)[k].end
    ensures Enclosed(value, secret, n)
  {
    hide Spans, AssignSpan, SecretAt, Own;
    SpanIsOwn(value, secret, k);
    var m :| 0 <= m < |value| && SecretAt(value, m, secret).Some?
             && Spans(value, 0, secret)[k] == Own(value, m, secret);
    assert NestedIn(value, secret, m, n);
  }

  /** By going from a value that sticks out to the one enclosing it, whose name comes earlier. */
  lemma {:induction false} WellNestedHides(value: string, secret: string -> bool, n: nat)
    requires WellNested(value, secret) && SecretAt(value, n, secret).Some?
    ensures Hidden(value, n, secret)
    decreases n
  {
    hide Spans, AssignSpan, SecretAt, Own, Hidden;
    var own, spans := Own(value, n, secret), Spans(value, 0, secret);
    ValueIsHiddenExactly(value, n, secret);
    if k: nat :| k < |spans| && spans[k].start <= n < spans[k].end && spans[k].end < own.end && own.start < own.end {
      OuterOf(value, secret, n, k);
      var m' :| NestedIn(value, secret, m', n) && own.end <= Own(value, m', secret).end;
      NestedNames(value, secret, m', n);
      WellNestedHides(value, secret, m');
      HiddenReaches(value, secret, m', n, k);
    }
  }

  lemma {:induction false} OuterOf(value: string, secret: string -> bool, n: nat, k: nat)
    requires WellNested(value, secret) && SecretAt(value, n, secret).Some? && k < |Spans(value, 0, secret)|
    requires Spans(value, 0, secret)[k].start <= n < Spans(value, 0, secret)[k].end
    requires Own(value, n, secret).start < Own(value, n, secret).end
    ensures exists m :: NestedIn(value, secret, m, n) && Own(value, n, secret).end <= Own(value, m, secret).end
  {
    hide Spans, AssignSpan, SecretAt, Own;
    SpanIsOwn(value, secret, k);
    var m :| 0 <= m < |value| && SecretAt(value, m, secret).Some?
             && Spans(value, 0, secret)[k] == Own(value, m, secret);
    assert NestedIn(value, secret, m, n);
    assert Enclosed(value, secret, n);
  }

  /** A hidden value around the name at `n` ends no later than the replaced value that name begins in. */
  lemma {:induction false} HiddenReaches(value: string, secret: string -> bool, m: nat, n: nat, k: nat)
    requires NestedIn(value, secret, m, n) && Hidden(value, m, secret) && k < |Spans(value, 0, secret)|
    requires Spans(value, 0, secret)[k].start <= n < Spans(value, 0, secret)[k].end
    ensures Own(value, m, secret).end <= Spans(value, 0, secret)[k].end
  {
    hide Spans, AssignSpan, SecretAt, Own, Hidden;
    var spans := Spans(value, 0, secret);
    OneSpanHolds(value, secret, n, k);
    OwnValueIsReplacedExactly(value, m, secret);
    ValueIsHiddenExactly(value, m, secret);
    if Own(value, m, secret) in spans {
      var j :| 0 <= j < |spans| && spans[j] == Own(value, m, secret);
      assert j == k;
    } else {
      var j :| 0 <= j < |spans| && spans[j].start <= m < spans[j].end;
      NestedNames(value, secret, m, n);
      assert spans[j].start <= n < spans[j].end;
    }
  }

  // ---------------------------------------------------------------- a secret that is written out

  predicate IsSecretOrToken(name: string) {
    name == "secret" || name == "token"
  }

  lemma {:induction false} SkipTo(value: string, i: nat, p: char -> bool, r: nat)
    requires i <= r <= |value| && (forall k :: i <= k < r ==> p(value[k])) && (r < |value| ==> !p(value[r]))
    ensures SkipWhile(value, i, p) == r
  {
    hide SkipWhile;
    var s := SkipWhile(value, i, p);
    assert s < |value| ==> !p(value[s]);
  }

  /** `secret: token: abc123`: the value of the first assignment is the name of the second, and the value
      of the second is written out. */
  lemma {:induction false} SecretAfterSecretIsWrittenOut()
    ensures
      var t := "secret: token: abc123";
      && SecretAt(t, 8, IsSecretOrToken) == Some(15) && Own(t, 8, IsSecretOrToken) == Span(15, 21, MARKER)
      && Spans(t, 0, IsSecretOrToken) == [Span(8, 14, MARKER)]
      && Splice(t, 0, Spans(t, 0, IsSecretOrToken)) == "secret: " + MARKER + " abc123"
  {
    var t := "secret: token: abc123";
    hide AssignSpan, SecretAt, NameAt, NameEnd;
    WitnessNames(t);
    WitnessValues(t);
    SpansUnfold(t, 0, IsSecretOrToken);
    SpansUnfold(t, 14, IsSecretOrToken);
    SpansUnfold(t, 15, IsSecretOrToken);
    SpliceEnd(t, 14, IsSecretOrToken);
    assert Spans(t, 21, IsSecretOrToken) == [];
    assert t[0..8] == "secret: " && t[14..] == " abc123";
    SpliceHead(t, 0, Span(8, 14, MARKER), []);
  }

  lemma {:induction false} WitnessNames(t: string)
    requires t == "secret: token: abc123"
    ensures SecretAt(t, 0, IsSecretOrToken) == Some(8) && SecretAt(t, 8, IsSecretOrToken) == Some(15)
    ensures !NameAt(t, 14) && SecretAt(t, 14, IsSecretOrToken) == None
    ensures NameAt(t, 15) && NameEnd(t, 15) == 21 && SecretAt(t, 15, IsSecretOrToken) == None
  {
    hide SkipWhile, ValueStart, NameEnd;
    NameTo(t, 0, 6);
    NameTo(t, 8, 13);
    NameTo(t, 15, 21);
    assert t[0..6] == "secret" && t[8..13] == "token" && t[15..21] == "abc123";
    ColonTo(t, 6, 8);
    ColonTo(t, 13, 15);
  }

  lemma {:induction false} NameTo(t: string, n: nat, e: nat)
    requires NameAt(t, n) && n < e <= |t| && (forall k :: n < k < e ==> IsNamePart(t[k]))
    requires e < |t| ==> !IsNamePart(t[e])
    ensures NameEnd(t, n) == e
  {
    SkipTo(t, n + 1, IsNamePart, e);
  }

  lemma {:induction false} ColonTo(t: string, e: nat, start: nat)
    requires e + 2 == start < |t| && t[e] == ':' && t[e + 1] == ' ' && !IsSpace(t[start])
    ensures ValueStart(t, e) == Some(start)
  {
    hide SkipWhile;
    SkipTo(t, e, IsSpace, e);
    SkipTo(t, e + 1, IsSpace, start);
  }

  lemma {:induction false} WitnessValues(t: string)
    requires t == "secret: token: abc123"
    ensures AssignSpan(t, 8) == Span(8, 14, MARKER) && AssignSpan(t, 15) == Span(15, 21, MARKER)
  {
    hide SkipWhile, QuoteEnd, StructEnd;
    SkipBare(t, 8, 14);
    SkipBare(t, 15, 21);
  }

  lemma {:induction false} SkipBare(t: string, i: nat, r: nat)
    requires i < r <= |t| && (forall k :: i <= k < r ==> !IsDelimiter(t[k])) && (r < |t| ==> IsDelimiter(t[r]))
    requires !IsQuote(t[i]) && t[i] != '{' && t[i] != '['
    ensures AssignSpan(t, i) == Span(i, r, MARKER)
  {
    hide SkipWhile, QuoteEnd, StructEnd;
    var s := AssignSpan(t, i).end;
    assert s == SkipWhile(t, i, c => !IsDelimiter(c));
  }

  /** A secret name followed by a separator and a printed value: that value, all of it and no more, is a
      replaced span if and only if the name does not begin inside a replaced value. */
  lemma {:induction false} PrintedSecretIsReplaced(t: string, n: nat, secret: string -> bool, v: Value, after: string)
    requires SecretAt(t, n, secret).Some?
    requires WellFormed(v) && (v.Scalar? ==> after == "" || IsDelimiter(after[0]))
    requires t[SecretAt(t, n, secret).value..] == Print(v) + after
    ensures
      var start := SecretAt(t, n, secret).value;
      var whole := Span(start, start + |Print(v)|, if v.Str? then "\"" + MARKER + "\"" else MARKER);
      whole in Spans(t, 0, secret) <==> !Replaced(Spans(t, 0, secret), n)
  {
    hide AssignSpan, Print, Spans, SecretAt, WellFormed, Replaced;
    var start := SecretAt(t, n, secret).value;
    assert t == t[..start] + Print(v) + after;
    PrintedValueIsTheSpan(t[..start], v, after);
    OwnValueIsReplacedExactly(t, n, secret);
  }
}
