/** What an assignment and its value look like in a text (internal/admin/capture_redact.go), said on the characters
    and not on the scan: exactly such texts are found and replaced. */
module RedactLayout {
  import opened Options
  import opened JsonText
  import opened RedactAssign

  predicate Letter(c: char) {
    'a' <= c <= 'z' || 'A' <= c <= 'Z'
  }

  predicate NameChar(c: char) {
    Letter(c) || c in {'0', '1', '2', '3', '4', '5', '6', '7', '8', '9', '-', '_'}
  }

  predicate Blank(s: string) {
    forall i :: 0 <= i < |s| ==> s[i] in {' ', '\t', '\r', '\n'}
  }

  /** An assignment up to its value: a name, an optional quote and a sign, with white space between and after. */
  datatype Head = Head(name: string, gap: string, quote: string, space: string, sign: string, tail: string)

  predicate IsHead(h: Head) {
    && h.name != "" && Letter(h.name[0]) && (forall i :: 0 <= i < |h.name| ==> NameChar(h.name[i]))
    && Blank(h.gap) && Blank(h.space) && Blank(h.tail)
    && (h.quote == "" || h.quote == "\"" || h.quote == "'") && (h.sign == ":" || h.sign == "=")
  }

  function HeadText(h: Head): string {
    h.name + h.gap + h.quote + h.space + h.sign + h.tail
  }

  /** At `n`, where no longer name runs, a secret assignment begins whose value is at `start`. */
  ghost predicate Assigns(t: string, n: nat, h: Head, start: nat, secret: string -> bool) {
    && IsHead(h) && secret(h.name) && At(t, n, HeadText(h)) && start == n + |HeadText(h)|
    && (n > 0 ==> !NameChar(t[n - 1])) && (start < |t| ==> !Blank([t[start]]))
  }

  lemma {:induction false} Characters(c: char)
    ensures Letter(c) == IsNameStart(c) && NameChar(c) == IsNamePart(c) && Blank([c]) == IsSpace(c)
  {
    assert Blank([c]) == ([c][0] in {' ', '\t', '\r', '\n'});
  }

  lemma {:induction false} HeadParts(t: string, n: nat, h: Head)
    requires At(t, n, HeadText(h))
    ensures
      var e := n + |h.name|;
      var q := e + |h.gap|;
      var s := q + |h.quote| + |h.space|;
      && At(t, n, h.name) && At(t, e, h.gap) && At(t, q, h.quote) && At(t, q + |h.quote|, h.space) && At(t, s, h.sign)
      && At(t, s + |h.sign|, h.tail) && s + |h.sign| + |h.tail| == n + |HeadText(h)| <= |t|
  {
    hide At;
    AtInside(t, n, HeadText(h));
    AtConcat(t, n, h.name + h.gap + h.quote + h.space + h.sign, h.tail);
    AtConcat(t, n, h.name + h.gap + h.quote + h.space, h.sign);
    AtConcat4(t, n, h.name, h.gap, h.quote, h.space);
  }

  lemma {:induction false} SkipBlank(t: string, i: nat, s: string)
    requires At(t, i, s) && Blank(s) && (i + |s| < |t| ==> !Blank([t[i + |s|]]))
    ensures SkipWhile(t, i, IsSpace) == i + |s|
  {
    hide SkipWhile;
    forall k | i <= k < i + |s| ensures IsSpace(t[k]) {
      AtChar(t, i, s, k - i);
    }
    if i + |s| < |t| {
      Characters(t[i + |s|]);
    }
    SkipTo(t, i, IsSpace, i + |s|);
  }

  lemma {:induction false} SkipName(t: string, n: nat, name: string)
    requires At(t, n, name) && name != "" && Letter(name[0]) && (forall i :: 0 <= i < |name| ==> NameChar(name[i]))
    requires n > 0 ==> !NameChar(t[n - 1])
    requires n + |name| < |t| ==> !NameChar(t[n + |name|])
    ensures NameAt(t, n) && NameEnd(t, n) == n + |name| && t[n..n + |name|] == name
  {
    hide SkipWhile, NameEnd;
    var e := n + |name|;
    forall k | n <= k < e ensures IsNamePart(t[k]) && t[k] == name[k - n] {
      AtChar(t, n, name, k - n);
      Characters(t[k]);
    }
    Characters(name[0]);
    if n > 0 {
      Characters(t[n - 1]);
    }
    if e < |t| {
      Characters(t[e]);
    }
    NameTo(t, n, e);
  }

  /** What follows a name in a head is no part of it. */
  lemma {:induction false} AfterName(t: string, n: nat, h: Head)
    requires At(t, n, HeadText(h)) && IsHead(h)
    ensures n + |h.name| < |t| && !NameChar(t[n + |h.name|])
  {
    HeadParts(t, n, h);
    var e := n + |h.name|;
    var q := e + |h.gap|;
    AtChar(t, q + |h.quote| + |h.space|, h.sign, 0);
    if h.gap != "" {
      AtChar(t, e, h.gap, 0);
    } else if h.quote != "" {
      AtChar(t, q, h.quote, 0);
    } else if h.space != "" {
      AtChar(t, q, h.space, 0);
    }
  }

  /** Where the parts between a name that ends at `e` and its value lie. */
  ghost predicate Parts(t: string, e: nat, q: nat, b: nat, s: nat, start: nat) {
    && e <= q <= b <= s < start <= |t| && SkipWhile(t, e, IsSpace) == q
    && (if q < |t| && IsQuote(t[q]) then b == q + 1 && SkipWhile(t, b, IsSpace) == s else b == s == q)
    && (t[s] == ':' || t[s] == '=') && SkipWhile(t, s + 1, IsSpace) == start
  }

  lemma {:induction false} PartsGiveStart(t: string, e: nat, q: nat, b: nat, s: nat, start: nat)
    requires Parts(t, e, q, b, s, start)
    ensures ValueStart(t, e) == Some(start)
  {
    hide SkipWhile;
  }

  lemma {:induction false} StartHasParts(t: string, e: nat) returns (q: nat, b: nat, s: nat)
    requires e <= |t| && ValueStart(t, e).Some?
    ensures Parts(t, e, q, b, s, ValueStart(t, e).value)
  {
    hide SkipWhile;
    q := SkipWhile(t, e, IsSpace);
    b := if q < |t| && IsQuote(t[q]) then q + 1 else q;
    s := if b > q then SkipWhile(t, b, IsSpace) else q;
  }

  lemma {:induction false} HeadIsPassed(t: string, n: nat, h: Head, start: nat)
    requires At(t, n, HeadText(h)) && IsHead(h) && start == n + |HeadText(h)| && (start < |t| ==> !Blank([t[start]]))
    ensures n + |h.name| <= |t| && ValueStart(t, n + |h.name|) == Some(start)
  {
    hide SkipWhile, At, HeadText, ValueStart, Blank, Parts;
    HeadParts(t, n, h);
    var e := n + |h.name|;
    var q := e + |h.gap|;
    var b := q + |h.quote|;
    var s := b + |h.space|;
    AtInside(t, s, h.sign);
    AtInside(t, s + 1, h.tail);
    AtChar(t, s, h.sign, 0);
    SignIsNotBlank(t[s]);
    SkipBlank(t, s + 1, h.tail);
    SkipBlank(t, b, h.space);
    if h.quote == "" {
      JoinBlanks(t, e, h.gap, h.space);
      SkipBlank(t, e, h.gap + h.space);
      HeadHasParts(t, e, s, s, s, start);
    } else {
      AtInside(t, q, h.quote);
      AtChar(t, q, h.quote, 0);
      SignIsNotBlank(t[q]);
      SkipBlank(t, e, h.gap);
      HeadHasParts(t, e, q, b, s, start);
    }
    PartsGiveStart(t, e, if h.quote == "" then s else q, if h.quote == "" then s else b, s, start);
  }

  lemma {:induction false} HeadHasParts(t: string, e: nat, q: nat, b: nat, s: nat, start: nat)
    requires e <= q <= b <= s < start <= |t| && SkipWhile(t, e, IsSpace) == q && SkipWhile(t, s + 1, IsSpace) == start
    requires t[s] == ':' || t[s] == '='
    requires b == s == q || (b == q + 1 && (t[q] == '"' || t[q] == '\'') && SkipWhile(t, b, IsSpace) == s)
    ensures Parts(t, e, q, b, s, start)
  {
    hide SkipWhile;
  }

  lemma {:induction false} SignIsNotBlank(c: char)
    requires c in {':', '=', '"', '\''}
    ensures !Blank([c])
  {
    assert [c][0] == c;
  }

  lemma {:induction false} JoinBlanks(t: string, i: nat, a: string, b: string)
    requires At(t, i, a) && At(t, i + |a|, b) && Blank(a) && Blank(b)
    ensures At(t, i, a + b) && Blank(a + b)
  {
    AtJoin(t, i, a, b);
  }

  /** A head is found, with the value where the head ends. */
  lemma {:induction false} LayoutIsFound(t: string, n: nat, h: Head, start: nat, secret: string -> bool)
    requires Assigns(t, n, h, start, secret)
    ensures SecretAt(t, n, secret) == Some(start)
  {
    hide SkipWhile, ValueStart, NameEnd, HeadText;
    AfterName(t, n, h);
    HeadParts(t, n, h);
    SkipName(t, n, h.name);
    HeadIsPassed(t, n, h, start);
  }

  lemma {:induction false} Slices(t: string, a: nat, b: nat)
    requires a <= b <= |t| && (forall k :: a <= k < b ==> IsSpace(t[k]))
    ensures Blank(t[a..b])
  {
  }

  /** Whatever is found has a head. */
  lemma {:induction false} FoundHasLayout(t: string, n: nat, secret: string -> bool) returns (h: Head)
    requires SecretAt(t, n, secret).Some?
    ensures Assigns(t, n, h, SecretAt(t, n, secret).value, secret)
  {
    hide SkipWhile, ValueStart, Parts, HeadText, IsHead, At;
    var e := NameEnd(t, n);
    var start := SecretAt(t, n, secret).value;
    var q, b, s := StartHasParts(t, e);
    PartsAreBlank(t, e, q, b, s, start);
    NameIsName(t, n);
    h := HeadOf(t, n, e, q, b, s, start);
    IsHeadOf(t, n, e, q, b, s, start);
    AroundHead(t, start);
  }

  function HeadOf(t: string, n: nat, e: nat, q: nat, b: nat, s: nat, start: nat): Head
    requires n <= e <= q <= b <= s < start <= |t|
  {
    Head(t[n..e], t[e..q], t[q..b], t[b..s], t[s..s + 1], t[s + 1..start])
  }

  lemma {:induction false} PartsAreBlank(t: string, e: nat, q: nat, b: nat, s: nat, start: nat)
    requires Parts(t, e, q, b, s, start)
    ensures e <= q <= b <= s < start <= |t| && Blank(t[e..q]) && Blank(t[b..s]) && Blank(t[s + 1..start])
    ensures b == q || (b == q + 1 && (t[q] == '"' || t[q] == '\''))
    ensures (t[s] == ':' || t[s] == '=') && (start < |t| ==> !IsSpace(t[start]))
  {
    Slices(t, e, q);
    Slices(t, b, s);
    Slices(t, s + 1, start);
  }

  lemma {:induction false} NameIsName(t: string, n: nat)
    requires NameAt(t, n)
    ensures n < NameEnd(t, n) <= |t| && Letter(t[n]) && (n > 0 ==> !NameChar(t[n - 1]))
    ensures forall k :: n <= k < NameEnd(t, n) ==> NameChar(t[k])
  {
    var e := NameEnd(t, n);
    forall k | n <= k < e ensures NameChar(t[k]) {
      Characters(t[k]);
    }
    Characters(t[n]);
    if n > 0 {
      Characters(t[n - 1]);
    }
  }

  lemma {:induction false} IsHeadOf(t: string, n: nat, e: nat, q: nat, b: nat, s: nat, start: nat)
    requires n < e <= q <= b <= s < start <= |t| && Letter(t[n]) && forall k :: n <= k < e ==> NameChar(t[k])
    requires Blank(t[e..q]) && Blank(t[b..s]) && Blank(t[s + 1..start]) && (t[s] == ':' || t[s] == '=')
    requires b == q || (b == q + 1 && (t[q] == '"' || t[q] == '\''))
    ensures
      var h := HeadOf(t, n, e, q, b, s, start);
      IsHead(h) && At(t, n, HeadText(h)) && start == n + |HeadText(h)|
  {
    hide Blank, NameChar, Letter;
    JoinSlices(t, n, e, q);
    JoinSlices(t, n, q, b);
    JoinSlices(t, n, b, s);
    JoinSlices(t, n, s, s + 1);
    JoinSlices(t, n, s + 1, start);
    PartsOfHead(t, n, e, q, b, s, start);
  }

  lemma {:induction false} JoinSlices(t: string, a: nat, b: nat, c: nat)
    requires a <= b <= c <= |t|
    ensures t[a..b] + t[b..c] == t[a..c]
  {
  }

  lemma {:induction false} PartsOfHead(t: string, n: nat, e: nat, q: nat, b: nat, s: nat, start: nat)
    requires n < e <= q <= b <= s < start <= |t| && Letter(t[n]) && forall k :: n <= k < e ==> NameChar(t[k])
    requires Blank(t[e..q]) && Blank(t[b..s]) && Blank(t[s + 1..start]) && (t[s] == ':' || t[s] == '=')
    requires b == q || (b == q + 1 && (t[q] == '"' || t[q] == '\''))
    ensures IsHead(HeadOf(t, n, e, q, b, s, start))
  {
    hide Blank, NameChar, Letter;
    var name := t[n..e];
    assert name[0] == t[n] && forall i :: 0 <= i < |name| ==> name[i] == t[n + i];
    assert t[s..s + 1] == [t[s]] && (b == q + 1 ==> t[q..b] == [t[q]]);
  }

  lemma {:induction false} AroundHead(t: string, start: nat)
    requires start <= |t| && (start < |t| ==> !IsSpace(t[start]))
    ensures start < |t| ==> !Blank([t[start]])
  {
    if start < |t| {
      Characters(t[start]);
    }
  }

  /** Main result on what is an assignment: exactly a whole secret name followed by an optional quote and a colon or
      equals sign, with any white space around these; the value starts at the first character that is none. */
  lemma {:induction false} AssignmentExactly(t: string, n: nat, start: nat, secret: string -> bool)
    ensures SecretAt(t, n, secret) == Some(start) <==> exists h :: Assigns(t, n, h, start, secret)
  {
    hide Assigns, SecretAt;
    if SecretAt(t, n, secret) == Some(start) {
      var h := FoundHasLayout(t, n, secret);
    }
    if h :| Assigns(t, n, h, start, secret) {
      LayoutIsFound(t, n, h, start, secret);
    }
  }

  // ---------------------------------------------------------------- values

  /** A body between quotes `q`: every backslash takes the next character with it, and no other is the quote. */
  predicate QuoteBody(s: string, q: char) {
    || s == ""
    || (s[0] == '\\' && |s| >= 2 && QuoteBody(s[2..], q))
    || (s[0] != '\\' && s[0] != q && QuoteBody(s[1..], q))
  }

  /** A bare word: no white space, `&`, `,`, `;`, `}` or `]`. */
  predicate Bare(s: string) {
    forall i :: 0 <= i < |s| ==> s[i] !in {' ', '\t', '\r', '\n', '&', ',', ';', '}', ']'}
  }

  /** The rest of the line from `i` on ends at `end`. */
  predicate LineTo(t: string, i: nat, end: nat) {
    && i <= end <= |t| && (forall k :: i <= k < end ==> t[k] != '\r' && t[k] != '\n')
    && (end < |t| ==> t[end] == '\r' || t[end] == '\n')
  }

  lemma {:induction false} QuoteIsClosed(t: string, i: nat, body: string, q: char)
    requires At(t, i, body + [q]) && QuoteBody(body, q) && q != '\\'
    ensures QuoteEnd(t, i, q) == Some(i + |body| + 1)
    decreases |body|
  {
    AtChar(t, i, body + [q], 0);
    if body == "" {
    } else {
      var k := if body[0] == '\\' then 2 else 1;
      assert body + [q] == body[..k] + (body[k..] + [q]);
      AtConcat(t, i, body[..k], body[k..] + [q]);
      QuoteIsClosed(t, i + k, body[k..], q);
    }
  }

  lemma {:induction false} ClosedHasBody(t: string, i: nat, q: char)
    requires QuoteEnd(t, i, q).Some? && q != '\\'
    ensures
      var end := QuoteEnd(t, i, q).value;
      i < end <= |t| && QuoteBody(t[i..end - 1], q) && t[end - 1] == q
    decreases if i < |t| then |t| - i else 0
  {
    var end := QuoteEnd(t, i, q).value;
    var body := t[i..end - 1];
    if t[i] == '\\' {
      ClosedHasBody(t, i + 2, q);
      assert body[2..] == t[i + 2..end - 1];
    } else if t[i] != q {
      ClosedHasBody(t, i + 1, q);
      assert body[1..] == t[i + 1..end - 1];
    }
  }

  lemma {:induction false} LineEndIs(t: string, i: nat, end: nat)
    requires LineTo(t, i, end)
    ensures LineEnd(t, i) == end
  {
    hide LineEnd;
    LineEndStops(t, i);
  }

  lemma {:induction false} LineEndStops(t: string, i: nat)
    requires i <= |t|
    ensures LineTo(t, i, LineEnd(t, i))
  {
    var end := LineEnd(t, i);
    assert end == SkipWhile(t, i, c => c != '\r' && c != '\n');
  }

  // ---------------------------------------------------------------- bracketed values

  /** Text in brackets: any characters, quoted strings of either kind, and bracketed groups. */
  datatype Piece = Raw(c: char) | Quotation(quote: char, body: string) | Group(open: char, inside: Pieces)
  datatype Pieces = End | Then(first: Piece, rest: Pieces)

  predicate ValidPiece(p: Piece) {
    match p
    case Raw(c) => c !in {'"', '\'', '{', '}', '[', ']'}
    case Quotation(quote, body) => (quote == '"' || quote == '\'') && QuoteBody(body, quote)
    case Group(open, inside) => (open == '{' || open == '[') && ValidPieces(inside)
  }

  predicate ValidPieces(ps: Pieces) {
    ps.Then? ==> ValidPiece(ps.first) && ValidPieces(ps.rest)
  }

  function Closing(open: char): char {
    if open == '[' then ']' else '}'
  }

  function PieceText(p: Piece): string {
    match p
    case Raw(c) => [c]
    case Quotation(quote, body) => [quote] + body + [quote]
    case Group(open, inside) => [open] + PiecesText(inside) + [Closing(open)]
  }

  function PiecesText(ps: Pieces): string {
    if ps.End? then "" else PieceText(ps.first) + PiecesText(ps.rest)
  }

  /** Inside a quote only its closing counts. */
  lemma {:induction false} QuoteThenStruct(t: string, i: nat, stack: seq<char>, q: char)
    requires |stack| > 0 && q != NO_QUOTE && q != '\\'
    ensures StructEnd(t, i, stack, q)
         == match QuoteEnd(t, i, q) case None => None case Some(j) => StructEnd(t, j, stack, NO_QUOTE)
    decreases if i < |t| then |t| - i else 0
  {
    if i >= |t| {
    } else if t[i] == '\\' {
      QuoteThenStruct(t, i + 2, stack, q);
    } else if t[i] != q {
      QuoteThenStruct(t, i + 1, stack, q);
    }
  }

  /** One character outside quotes. */
  lemma {:induction false} StructStep(t: string, i: nat, stack: seq<char>)
    requires i < |t| && |stack| > 0
    ensures
      var here, c := StructEnd(t, i, stack, NO_QUOTE), t[i];
      && (c == '"' || c == '\'' ==> here == StructEnd(t, i + 1, stack, c))
      && (c == '{' || c == '[' ==> here == StructEnd(t, i + 1, stack + [c], NO_QUOTE))
      && ((c == '}' && stack[|stack| - 1] == '{') || (c == ']' && stack[|stack| - 1] == '[') ==>
            here == if |stack| == 1 then Some(i + 1) else StructEnd(t, i + 1, stack[..|stack| - 1], NO_QUOTE))
      && (c !in {'"', '\'', '{', '}', '[', ']'} ==> here == StructEnd(t, i + 1, stack, NO_QUOTE))
  {
  }

  lemma {:induction false} PassPiece(t: string, i: nat, p: Piece, stack: seq<char>)
    requires At(t, i, PieceText(p)) && ValidPiece(p) && |stack| > 0
    ensures StructEnd(t, i, stack, NO_QUOTE) == StructEnd(t, i + |PieceText(p)|, stack, NO_QUOTE)
    decreases p, 1
  {
    hide QuoteEnd, StructEnd, At, QuoteBody, PiecesText, ValidPieces;
    AtInside(t, i, PieceText(p));
    AtChar(t, i, PieceText(p), 0);
    StructStep(t, i, stack);
    match p
    case Raw(c) =>
    case Quotation(quote, body) =>
      PassQuotation(t, i, quote, body, stack);
    case Group(open, inside) =>
      PassGroup(t, i, p, stack + [open]);
      assert (stack + [open])[..|stack|] == stack;
      StructStep(t, i + |PieceText(p)| - 1, stack + [open]);
  }

  lemma {:induction false} PassQuotation(t: string, i: nat, quote: char, body: string, stack: seq<char>)
    requires At(t, i, [quote] + body + [quote]) && ValidPiece(Quotation(quote, body)) && |stack| > 0
    ensures StructEnd(t, i, stack, NO_QUOTE) == StructEnd(t, i + |body| + 2, stack, NO_QUOTE)
  {
    hide QuoteEnd, StructEnd, At, QuoteBody;
    AtInside(t, i, [quote] + body + [quote]);
    assert [quote] + body + [quote] == [quote] + (body + [quote]);
    AtChar(t, i, [quote] + body + [quote], 0);
    AtConcat(t, i, [quote], body + [quote]);
    StructStep(t, i, stack);
    QuoteIsClosed(t, i + 1, body, quote);
    QuoteThenStruct(t, i + 1, stack, quote);
  }

  lemma {:induction false} PassGroup(t: string, i: nat, p: Piece, stack: seq<char>)
    requires p.Group? && At(t, i, PieceText(p)) && ValidPiece(p) && |stack| > 0
    ensures i + |PieceText(p)| <= |t| && t[i] == p.open && t[i + |PieceText(p)| - 1] == Closing(p.open)
    ensures StructEnd(t, i + 1, stack, NO_QUOTE) == StructEnd(t, i + |PieceText(p)| - 1, stack, NO_QUOTE)
    decreases p, 0
  {
    hide StructEnd, At, PiecesText;
    AtInside(t, i, PieceText(p));
    AtConcat(t, i, [p.open] + PiecesText(p.inside), [Closing(p.open)]);
    AtConcat(t, i, [p.open], PiecesText(p.inside));
    AtChar(t, i, [p.open], 0);
    AtChar(t, i + 1 + |PiecesText(p.inside)|, [Closing(p.open)], 0);
    PassPieces(t, i + 1, p.inside, stack);
  }

  lemma {:induction false} PassPieces(t: string, i: nat, ps: Pieces, stack: seq<char>)
    requires At(t, i, PiecesText(ps)) && ValidPieces(ps) && |stack| > 0
    ensures StructEnd(t, i, stack, NO_QUOTE) == StructEnd(t, i + |PiecesText(ps)|, stack, NO_QUOTE)
    decreases ps, 0
  {
    hide StructEnd, At, PieceText;
    if ps.Then? {
      AtConcat(t, i, PieceText(ps.first), PiecesText(ps.rest));
      PassPiece(t, i, ps.first, stack);
      PassPieces(t, i + |PieceText(ps.first)|, ps.rest, stack);
    }
  }

  /** What is left of open groups, innermost last: the rest of each and its closing bracket. */
  function OpenText(layers: seq<Pieces>, stack: seq<char>): string
    requires |layers| == |stack|
  {
    if stack == [] then ""
    else
      var n := |stack| - 1;
      PiecesText(layers[n]) + [Closing(stack[n])] + OpenText(layers[..n], stack[..n])
  }

  ghost predicate Closes(s: string, layers: seq<Pieces>, stack: seq<char>) {
    |layers| == |stack| && s == OpenText(layers, stack) && forall k :: 0 <= k < |layers| ==> ValidPieces(layers[k])
  }

  lemma {:induction false} PutPiece(p: Piece, s: string, layers: seq<Pieces>, stack: seq<char>)
    returns (more: seq<Pieces>)
    requires ValidPiece(p) && Closes(s, layers, stack) && stack != []
    ensures Closes(PieceText(p) + s, more, stack)
  {
    hide PieceText;
    var n := |stack| - 1;
    more := layers[n := Then(p, layers[n])];
    assert more[..n] == layers[..n];
    assert PiecesText(more[n]) == PieceText(p) + PiecesText(layers[n]);
  }

  lemma {:induction false} PutGroup(open: char, s: string, layers: seq<Pieces>, stack: seq<char>)
    returns (more: seq<Pieces>)
    requires (open == '{' || open == '[') && Closes(s, layers, stack + [open]) && stack != []
    ensures Closes([open] + s, more, stack)
  {
    hide PiecesText;
    var n := |stack|;
    assert (stack + [open])[..n] == stack;
    var p := Group(open, layers[n]);
    var rest := OpenText(layers[..n], stack);
    assert [open] + s == PieceText(p) + rest;
    more := PutPiece(p, rest, layers[..n], stack);
  }

  lemma {:induction false} PutClosing(s: string, layers: seq<Pieces>, stack: seq<char>) returns (more: seq<Pieces>)
    requires stack != [] && Closes(s, layers, stack[..|stack| - 1])
    ensures Closes([Closing(stack[|stack| - 1])] + s, more, stack)
  {
    more := layers + [End];
    assert more[..|stack| - 1] == layers;
  }

  /** A scan that ends has read the rest of every open group. */
  lemma {:induction false} EndHasLayers(t: string, i: nat, stack: seq<char>) returns (layers: seq<Pieces>)
    requires |stack| > 0 && StructEnd(t, i, stack, NO_QUOTE).Some?
    requires forall k :: 0 <= k < |stack| ==> stack[k] == '{' || stack[k] == '['
    ensures i < StructEnd(t, i, stack, NO_QUOTE).value <= |t|
    ensures Closes(t[i..StructEnd(t, i, stack, NO_QUOTE).value], layers, stack)
    decreases |t| - i
  {
    hide QuoteEnd, Closes;
    var end := StructEnd(t, i, stack, NO_QUOTE).value;
    var c := t[i];
    if c == '"' || c == '\'' {
      var p, j := QuotationAt(t, i, stack);
      layers := EndHasLayers(t, j, stack);
      assert t[i..end] == PieceText(p) + t[j..end];
      layers := PutPiece(p, t[j..end], layers, stack);
    } else if c == '{' || c == '[' {
      layers := EndHasLayers(t, i + 1, stack + [c]);
      assert t[i..end] == [c] + t[i + 1..end];
      layers := PutGroup(c, t[i + 1..end], layers, stack);
    } else if c == '}' || c == ']' {
      if |stack| == 1 {
        NothingCloses(t[end..end], stack[..0]);
        layers := PutClosing(t[end..end], [], stack);
        assert t[i..end] == [c] + t[end..end];
      } else {
        layers := EndHasLayers(t, i + 1, stack[..|stack| - 1]);
        assert t[i..end] == [c] + t[i + 1..end];
        layers := PutClosing(t[i + 1..end], layers, stack);
      }
    } else {
      layers := EndHasLayers(t, i + 1, stack);
      assert t[i..end] == PieceText(Raw(c)) + t[i + 1..end];
      layers := PutPiece(Raw(c), t[i + 1..end], layers, stack);
    }
  }

  lemma {:induction false} QuotationAt(t: string, i: nat, stack: seq<char>) returns (p: Piece, j: nat)
    requires |stack| > 0 && StructEnd(t, i, stack, NO_QUOTE).Some? && (t[i] == '"' || t[i] == '\'')
    ensures i < j <= |t| && ValidPiece(p) && t[i..j] == PieceText(p)
    ensures StructEnd(t, i, stack, NO_QUOTE) == StructEnd(t, j, stack, NO_QUOTE)
  {
    hide QuoteEnd;
    QuoteThenStruct(t, i + 1, stack, t[i]);
    ClosedHasBody(t, i + 1, t[i]);
    j := QuoteEnd(t, i + 1, t[i]).value;
    p := Quotation(t[i], t[i + 1..j - 1]);
  }

  lemma {:induction false} NothingCloses(s: string, stack: seq<char>)
    requires s == "" && stack == []
    ensures Closes(s, [], stack)
  {
  }

  /** `t` holds a whole bracketed group from `start` to `end`. */
  ghost predicate GroupAt(t: string, start: nat, end: nat, p: Piece) {
    p.Group? && ValidPiece(p) && At(t, start, PieceText(p)) && end == start + |PieceText(p)|
  }

  lemma {:induction false} EndHasGroup(t: string, start: nat) returns (p: Piece)
    requires start < |t| && (t[start] == '{' || t[start] == '[')
    requires StructEnd(t, start + 1, [t[start]], NO_QUOTE).Some?
    ensures GroupAt(t, start, StructEnd(t, start + 1, [t[start]], NO_QUOTE).value, p)
  {
    hide StructEnd;
    var open, end := t[start], StructEnd(t, start + 1, [t[start]], NO_QUOTE).value;
    var layers := EndHasLayers(t, start + 1, [open]);
    p := Group(open, layers[0]);
    assert OpenText(layers[..0], [open][..0]) == "";
    assert t[start..end] == PieceText(p);
  }

  lemma {:induction false} GroupEnds(t: string, start: nat, end: nat, p: Piece)
    requires GroupAt(t, start, end, p)
    ensures start < |t| && t[start] == p.open && StructEnd(t, start + 1, [t[start]], NO_QUOTE) == Some(end)
  {
    hide PieceText;
    PassGroup(t, start, p, [p.open]);
  }

  // ---------------------------------------------------------------- main results on values

  ghost predicate QuotedAt(t: string, start: nat, end: nat, body: string) {
    && start < |t| && QuoteBody(body, t[start]) && At(t, start, [t[start]] + body + [t[start]])
    && end == start + |body| + 2
  }

  /** What stands at `start` is a value that ends at `end` and is replaced by `replacement`: nothing, a string in
      quotes of either kind, a bracketed group, or a bare word; a string or group that is not closed takes the rest of
      the line. */
  ghost predicate ValueAt(t: string, start: nat, end: nat, replacement: string)
    requires start <= |t|
  {
    if start == |t| then end == start && replacement == MARKER
    else if t[start] == '"' || t[start] == '\'' then
      || ((exists body :: QuotedAt(t, start, end, body)) && replacement == [t[start]] + MARKER + [t[start]])
      || ((forall e, body :: !QuotedAt(t, start, e, body)) && LineTo(t, start, end)
          && replacement == [t[start]] + MARKER)
    else if t[start] == '{' || t[start] == '[' then
      && replacement == MARKER
      && ((exists p :: GroupAt(t, start, end, p))
          || ((forall e, p :: !GroupAt(t, start, e, p)) && LineTo(t, start, end)))
    else
      start <= end <= |t| && Bare(t[start..end]) && (end < |t| ==> !Bare([t[end]])) && replacement == MARKER
  }

  lemma {:induction false} ClosedIsQuoted(t: string, start: nat, end: nat)
    requires start < |t| && (t[start] == '"' || t[start] == '\'') && QuoteEnd(t, start + 1, t[start]) == Some(end)
    ensures start + 2 <= end <= |t| && QuotedAt(t, start, end, t[start + 1..end - 1])
  {
    hide QuoteEnd, QuoteBody;
    ClosedHasBody(t, start + 1, t[start]);
    assert t[start..end] == [t[start]] + t[start + 1..end - 1] + [t[start]];
  }

  lemma {:induction false} QuotedIsClosed(t: string, start: nat, end: nat, body: string)
    requires QuotedAt(t, start, end, body) && (t[start] == '"' || t[start] == '\'')
    ensures QuoteEnd(t, start + 1, t[start]) == Some(end)
  {
    hide QuoteEnd, QuoteBody, At;
    var q := t[start];
    assert [q] + body + [q] == [q] + (body + [q]);
    AtConcat(t, start, [q], body + [q]);
    QuoteIsClosed(t, start + 1, body, q);
  }

  lemma {:induction false} DelimiterIsNotBare(c: char)
    ensures IsDelimiter(c) <==> !Bare([c])
  {
    assert [c][0] == c;
  }

  lemma {:induction false} BareExactly(t: string, start: nat, end: nat)
    requires start <= |t| && (start < |t| ==> !IsQuote(t[start]) && t[start] != '{' && t[start] != '[')
    ensures AssignSpan(t, start).end == end <==>
            start <= end <= |t| && Bare(t[start..end]) && (end < |t| ==> !Bare([t[end]]))
  {
    hide SkipWhile, QuoteEnd, StructEnd;
    var found := AssignSpan(t, start).end;
    if start < |t| {
      assert found == SkipWhile(t, start, c => !IsDelimiter(c));
    }
    forall k | start <= k < found ensures t[k] !in {' ', '\t', '\r', '\n', '&', ',', ';', '}', ']'} {
      assert !IsDelimiter(t[k]);
    }
    if found < |t| {
      DelimiterIsNotBare(t[found]);
    }
    if start <= end <= |t| && Bare(t[start..end]) && (end < |t| ==> !Bare([t[end]])) {
      assert forall k :: start <= k < end ==> t[k] == t[start..end][k - start];
      if end < found {
        DelimiterIsNotBare(t[end]);
      }
    }
  }

  lemma {:induction false} QuotedValue(t: string, start: nat, end: nat, replacement: string)
    requires start < |t| && (t[start] == '"' || t[start] == '\'')
    ensures AssignSpan(t, start) == Span(start, end, replacement) <==> ValueAt(t, start, end, replacement)
  {
    hide SkipWhile, QuoteEnd, StructEnd, QuotedAt, LineTo, LineEnd;
    forall e: nat, body | QuotedAt(t, start, e, body) ensures QuoteEnd(t, start + 1, t[start]) == Some(e) {
      QuotedIsClosed(t, start, e, body);
    }
    LineExactly(t, start, end);
    if QuoteEnd(t, start + 1, t[start]).Some? {
      ClosedIsQuoted(t, start, QuoteEnd(t, start + 1, t[start]).value);
    }
  }

  lemma {:induction false} LineExactly(t: string, i: nat, end: nat)
    requires i <= |t|
    ensures LineTo(t, i, end) <==> LineEnd(t, i) == end
  {
    LineEndStops(t, i);
    if LineTo(t, i, end) {
      LineEndIs(t, i, end);
    }
  }

  lemma {:induction false} GroupValue(t: string, start: nat, end: nat, replacement: string)
    requires start < |t| && (t[start] == '{' || t[start] == '[')
    ensures AssignSpan(t, start) == Span(start, end, replacement) <==> ValueAt(t, start, end, replacement)
  {
    hide SkipWhile, QuoteEnd, StructEnd, GroupAt, LineTo, LineEnd;
    forall e: nat, p | GroupAt(t, start, e, p) ensures StructEnd(t, start + 1, [t[start]], NO_QUOTE) == Some(e) {
      GroupEnds(t, start, e, p);
    }
    LineExactly(t, start, end);
    if StructEnd(t, start + 1, [t[start]], NO_QUOTE).Some? {
      var p := EndHasGroup(t, start);
    }
  }

  /** Main result on values: the span replaced for an assignment is exactly its value. */
  lemma {:induction false} ValueExactly(t: string, start: nat, end: nat, replacement: string)
    requires start <= |t|
    ensures AssignSpan(t, start) == Span(start, end, replacement) <==> ValueAt(t, start, end, replacement)
  {
    if start < |t| && (t[start] == '"' || t[start] == '\'') {
      QuotedValue(t, start, end, replacement);
    } else if start < |t| && (t[start] == '{' || t[start] == '[') {
      GroupValue(t, start, end, replacement);
    } else if start < |t| {
      hide SkipWhile, QuoteEnd, StructEnd;
      BareExactly(t, start, end);
    }
  }

  // ---------------------------------------------------------------- main results on texts

  /** The text holds, at `n`, a secret assignment whose value is this span. */
  ghost predicate Holds(t: string, n: nat, span: Span, secret: string -> bool) {
    span.start <= |t| && (exists h :: Assigns(t, n, h, span.start, secret))
    && ValueAt(t, span.start, span.end, span.replacement)
  }

  lemma {:induction false} HoldsExactly(t: string, n: nat, span: Span, secret: string -> bool)
    ensures Holds(t, n, span, secret) <==> SecretAt(t, n, secret).Some? && span == Own(t, n, secret)
  {
    hide Assigns, ValueAt, SecretAt, AssignSpan;
    AssignmentExactly(t, n, span.start, secret);
    if span.start <= |t| {
      ValueExactly(t, span.start, span.end, span.replacement);
    }
    OwnStartsThere(t, n, secret);
  }

  lemma {:induction false} OwnStartsThere(t: string, n: nat, secret: string -> bool)
    ensures SecretAt(t, n, secret).Some? ==> Own(t, n, secret).start == SecretAt(t, n, secret).value <= |t|
  {
    hide SecretAt, AssignSpan;
  }

  /** A secret assignment in a text has its value, all of it and no more, replaced if and only if its name does not
      begin inside a replaced value; and nothing of the value is written out if and only if no replaced value the
      name begins in stops short of it, or it is empty. */
  lemma {:induction false} LaidOutSecretExactly(
    t: string, n: nat, h: Head, start: nat, end: nat, replacement: string, secret: string -> bool)
    requires start <= |t| && Assigns(t, n, h, start, secret) && ValueAt(t, start, end, replacement)
    ensures
      var spans := Spans(t, 0, secret);
      && (Span(start, end, replacement) in spans <==> !Replaced(spans, n))
      && ((forall p :: start <= p < end ==> Replaced(spans, p)) <==>
          forall k :: 0 <= k < |spans| && spans[k].start <= n < spans[k].end ==> end <= spans[k].end || start == end)
  {
    hide Assigns, ValueAt, SecretAt, AssignSpan, Spans, Replaced;
    HoldsExactly(t, n, Span(start, end, replacement), secret);
    OwnValueIsReplacedExactly(t, n, secret);
    ValueIsHiddenExactly(t, n, secret);
  }

  /** Nothing but values of secret assignments is replaced. */
  lemma {:induction false} ReplacedIsLaidOut(t: string, secret: string -> bool, k: nat)
    requires k < |Spans(t, 0, secret)|
    ensures exists n :: Holds(t, n, Spans(t, 0, secret)[k], secret)
  {
    hide Holds, SecretAt, AssignSpan, Spans;
    SpanIsOwn(t, secret, k);
    var n :| 0 <= n < |t| && SecretAt(t, n, secret).Some? && Spans(t, 0, secret)[k] == Own(t, n, secret);
    HoldsExactly(t, n, Spans(t, 0, secret)[k], secret);
  }

  lemma {:induction false} SpansFrom(t: string, i: nat, n: nat, secret: string -> bool)
    requires i <= n && SecretAt(t, n, secret).Some? && (forall m :: i <= m < n ==> SecretAt(t, m, secret).None?)
    ensures i <= |t| && Own(t, n, secret).end <= |t|
    ensures Spans(t, i, secret) == [Own(t, n, secret)] + Spans(t, Own(t, n, secret).end, secret)
    decreases n - i
  {
    hide SecretAt, AssignSpan, Spans, NameAt, NameEnd;
    SecretInside(t, n, secret);
    SpansUnfold(t, i, secret);
    if i < n {
      NextStaysBefore(t, i, n, secret);
      SpansFrom(t, if NameAt(t, i) then NameEnd(t, i) else i + 1, n, secret);
    }
  }

  /** The first secret assignment of a text: everything before its value is kept, its value becomes the replacement,
      and the scan goes on behind it. */
  lemma {:induction false} FirstSecretIsReplaced(
    t: string, n: nat, h: Head, start: nat, end: nat, replacement: string, secret: string -> bool)
    requires start <= |t| && Assigns(t, n, h, start, secret) && ValueAt(t, start, end, replacement)
    requires forall m: nat, g: Head, s: nat :: m < n ==> !Assigns(t, m, g, s, secret)
    ensures start <= end <= |t| && Ordered(Spans(t, 0, secret), 0, |t|) && Ordered(Spans(t, end, secret), end, |t|)
    ensures Splice(t, 0, Spans(t, 0, secret)) == t[..start] + replacement + Splice(t, end, Spans(t, end, secret))
  {
    hide Assigns, ValueAt, SecretAt, AssignSpan, Spans, Splice, Ordered;
    HoldsExactly(t, n, Span(start, end, replacement), secret);
    forall m | 0 <= m < n ensures SecretAt(t, m, secret).None? {
      if SecretAt(t, m, secret).Some? {
        var g := FoundHasLayout(t, m, secret);
      }
    }
    SpansFrom(t, 0, n, secret);
    SpansOrdered(t, 0, 0, secret);
    SpliceHead(t, 0, Span(start, end, replacement), Spans(t, end, secret));
    assert t[0..start] == t[..start];
  }

  /** `password=hunter2` becomes `password=[REDACTED]`: a text that is one secret name, a colon or equals sign and a
      bare word. */
  lemma {:induction false} PlainPairIsHidden(name: string, sign: string, word: string, secret: string -> bool)
    requires name != "" && Letter(name[0]) && (forall i :: 0 <= i < |name| ==> NameChar(name[i])) && secret(name)
    requires sign == ":" || sign == "="
    requires word != "" && Bare(word) && word[0] !in {'"', '\'', '{', '['}
    ensures
      var t := name + sign + word;
      && Ordered(Spans(t, 0, secret), 0, |t|)
      && Splice(t, 0, Spans(t, 0, secret)) == name + sign + "[REDACTED]"
  {
    hide Spans, Splice, Ordered, NameChar, Letter;
    var t, h := name + sign + word, Head(name, "", "", "", sign, "");
    var start := |name| + 1;
    assert HeadText(h) == name + sign == t[..start];
    assert t[start..] == word && t[start] == word[0];
    assert !Blank([t[start]]) by { assert [t[start]][0] == word[0] && word[0] !in {' ', '\t', '\r', '\n'}; }
    assert Assigns(t, 0, h, start, secret);
    assert t[start..|t|] == word;
    assert ValueAt(t, start, |t|, MARKER);
    FirstSecretIsReplaced(t, 0, h, start, |t|, MARKER, secret);
    SpliceEnd(t, |t|, secret);
  }
}
