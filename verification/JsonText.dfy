/** Concrete syntax of JSON texts (sections 2 to 7 of RFC 8259) and its printer.

    A `Value` keeps the white space of the text it stands for, so `Print` ranges over every
    way of laying a JSON value out, not over one canonical form. Text is a `string` in which
    one `char` stands for one byte of the Go string. */
module JsonText {

  predicate IsSpace(c: char) {
    c == ' ' || c == '\t' || c == '\n' || c == '\r'
  }

  predicate AllSpace(s: string) {
    forall i :: 0 <= i < |s| ==> IsSpace(s[i])
  }

  /** A word character or a dot. */
  predicate IsWordOrDot(c: char) {
    'a' <= c <= 'z' || 'A' <= c <= 'Z' || '0' <= c <= '9' || c == '_' || c == '.'
  }

  /** A body between quotes: no bare quote, and every backslash escapes the next character. */
  predicate IsBody(s: string) {
    || s == ""
    || (s[0] == '\\' && |s| >= 2 && IsBody(s[2..]))
    || (s[0] != '\\' && s[0] != '"' && IsBody(s[1..]))
  }

  /** Covers the literals `null`, `true`, `false` and every number. */
  predicate IsScalar(s: string) {
    && s != ""
    && (forall i :: 0 <= i < |s| ==> IsWordOrDot(s[i]) || s[i] == '+' || s[i] == '-')
    && IsWordOrDot(s[|s| - 1])
  }

  datatype Value =
    | Scalar(text: string)
    | Str(body: string)
    | Arr(pad: string, items: Items)
    | Obj(pad: string, members: Members)

  datatype Items =
    | NoItems
    | Item(pre: string, value: Value, post: string, rest: Items)

  /** `pre "key" mid : aft value post`, members separated by commas. */
  datatype Members =
    | NoMembers
    | Member(pre: string, key: string, mid: string, aft: string, value: Value, post: string, rest: Members)

  predicate WellFormed(v: Value) {
    match v
    case Scalar(text) => IsScalar(text)
    case Str(body) => IsBody(body)
    case Arr(pad, items) => AllSpace(pad) && WellFormedItems(items)
    case Obj(pad, members) => AllSpace(pad) && WellFormedMembers(members)
  }

  predicate WellFormedItems(xs: Items) {
    xs.Item? ==> AllSpace(xs.pre) && WellFormed(xs.value) && AllSpace(xs.post) && WellFormedItems(xs.rest)
  }

  predicate WellFormedMembers(ms: Members) {
    ms.Member? ==>
      && AllSpace(ms.pre) && IsBody(ms.key) && AllSpace(ms.mid) && AllSpace(ms.aft)
      && WellFormed(ms.value) && AllSpace(ms.post) && WellFormedMembers(ms.rest)
  }

  function Quoted(body: string): string {
    "\"" + body + "\""
  }

  function Print(v: Value): string {
    match v
    case Scalar(text) => text
    case Str(body) => Quoted(body)
    case Arr(pad, items) => "[" + pad + PrintItems(items) + "]"
    case Obj(pad, members) => "{" + pad + PrintMembers(members) + "}"
  }

  function PrintItems(xs: Items): string {
    match xs
    case NoItems => ""
    case Item(pre, value, post, rest) =>
      pre + Print(value) + post + (if rest.NoItems? then "" else "," + PrintItems(rest))
  }

  /** Everything of a member up to its value. */
  function Label(pre: string, key: string, mid: string, aft: string): string {
    pre + Quoted(key) + mid + ":" + aft
  }

  function PrintMembers(ms: Members): string {
    match ms
    case NoMembers => ""
    case Member(pre, key, mid, aft, value, post, rest) =>
      Label(pre, key, mid, aft) + Print(value) + post + (if rest.NoMembers? then "" else "," + PrintMembers(rest))
  }

  /** Objects open at once at the deepest point of the value. */
  function ObjectDepth(v: Value): nat {
    match v
    case Scalar(_) => 0
    case Str(_) => 0
    case Arr(_, items) => ItemsDepth(items)
    case Obj(_, members) => 1 + MembersDepth(members)
  }

  function ItemsDepth(xs: Items): nat {
    match xs
    case NoItems => 0
    case Item(_, value, _, rest) => Max(ObjectDepth(value), ItemsDepth(rest))
  }

  function MembersDepth(ms: Members): nat {
    match ms
    case NoMembers => 0
    case Member(_, _, _, _, value, _, rest) => Max(ObjectDepth(value), MembersDepth(rest))
  }

  function Max(a: nat, b: nat): nat {
    if a > b then a else b
  }

  /** `t` holds `s` at index `i`. */
  ghost predicate At(t: string, i: nat, s: string) {
    i + |s| <= |t| && t[i..i + |s|] == s
  }

  lemma {:induction false} AtConcat(t: string, i: nat, a: string, b: string)
    requires At(t, i, a + b)
    ensures At(t, i, a) && At(t, i + |a|, b)
  {
    var whole := t[i..i + |a + b|];
    assert whole[..|a|] == a && whole[|a|..] == b;
    assert t[i..i + |a|] == whole[..|a|];
    assert t[i + |a|..i + |a| + |b|] == whole[|a|..];
  }

  lemma {:induction false} AtChar(t: string, i: nat, s: string, k: nat)
    requires At(t, i, s) && k < |s|
    ensures t[i + k] == s[k]
  {
    assert t[i..i + |s|][k] == s[k];
  }

  lemma {:induction false} AtConcat4(t: string, i: nat, a: string, b: string, c: string, d: string)
    requires At(t, i, a + b + c + d)
    ensures At(t, i, a) && At(t, i + |a|, b) && At(t, i + |a| + |b|, c) && At(t, i + |a| + |b| + |c|, d)
  {
    AtConcat(t, i, a + b + c, d);
    AtConcat(t, i, a + b, c);
    AtConcat(t, i, a, b);
  }

  lemma {:induction false} AtInside(t: string, i: nat, s: string)
    requires At(t, i, s)
    ensures i + |s| <= |t|
  {
  }

  // ---------------------------------------------------------------- where the parts of a printed value lie

  lemma {:induction false} QuotedLayout(t: string, i: nat, body: string)
    requires At(t, i, Quoted(body))
    ensures i + |body| + 2 <= |t| && t[i] == '"' && At(t, i + 1, body) && t[i + 1 + |body|] == '"'
  {
    hide At;
    AtInside(t, i, Quoted(body));
    AtConcat(t, i, "\"" + body, "\"");
    AtConcat(t, i, "\"", body);
    AtChar(t, i, "\"", 0);
    AtChar(t, i + 1 + |body|, "\"", 0);
  }

  lemma {:induction false} InsideLayout(t: string, i: nat, v: Value)
    requires At(t, i, Print(v)) && (v.Arr? || v.Obj?)
    ensures
      var inner := if v.Arr? then PrintItems(v.items) else PrintMembers(v.members);
      var k := i + 1 + |v.pad| + |inner|;
      && k + 1 == i + |Print(v)| <= |t|
      && t[i] == (if v.Arr? then '[' else '{') && At(t, i + 1, v.pad) && At(t, i + 1 + |v.pad|, inner)
      && t[k] == (if v.Arr? then ']' else '}')
  {
    hide At, PrintItems, PrintMembers;
    AtInside(t, i, Print(v));
    if v.Arr? {
      BracketParts(t, i, "[", v.pad, PrintItems(v.items), "]");
    } else {
      BracketParts(t, i, "{", v.pad, PrintMembers(v.members), "}");
    }
  }

  lemma {:induction false} BracketParts(t: string, i: nat, open: string, pad: string, inner: string, close: string)
    requires At(t, i, open + pad + inner + close) && |open| == |close| == 1
    ensures
      var k := i + 1 + |pad| + |inner|;
      k < |t| && t[i] == open[0] && At(t, i + 1, pad) && At(t, i + 1 + |pad|, inner) && t[k] == close[0]
  {
    hide At;
    AtInside(t, i, open + pad + inner + close);
    AtConcat4(t, i, open, pad, inner, close);
    AtChar(t, i, open, 0);
    AtChar(t, i + 1 + |pad| + |inner|, close, 0);
  }

  lemma {:induction false} ItemsLayout(t: string, i: nat, xs: Items)
    requires xs.Item? && At(t, i, PrintItems(xs))
    ensures
      var b := i + |xs.pre| + |Print(xs.value)|;
      var c := b + |xs.post|;
      && At(t, i, xs.pre) && At(t, i + |xs.pre|, Print(xs.value)) && At(t, b, xs.post)
      && c <= i + |PrintItems(xs)| <= |t|
      && if xs.rest.NoItems? then c == i + |PrintItems(xs)|
         else
           && At(t, c, ",") && At(t, c + 1, PrintItems(xs.rest))
           && c + 1 + |PrintItems(xs.rest)| == i + |PrintItems(xs)|
  {
    hide At, Print;
    AtInside(t, i, PrintItems(xs));
    ListParts(t, i, xs.pre, Print(xs.value), xs.post, if xs.rest.NoItems? then "" else "," + PrintItems(xs.rest));
    if xs.rest.Item? {
      AtConcat(t, i + |xs.pre| + |Print(xs.value)| + |xs.post|, ",", PrintItems(xs.rest));
    }
  }

  lemma {:induction false} MembersLayout(t: string, i: nat, ms: Members)
    requires ms.Member? && At(t, i, PrintMembers(ms))
    ensures
      var name := Label(ms.pre, ms.key, ms.mid, ms.aft);
      var b := i + |name| + |Print(ms.value)|;
      var c := b + |ms.post|;
      && At(t, i, name) && At(t, i + |name|, Print(ms.value)) && At(t, b, ms.post)
      && c <= i + |PrintMembers(ms)| <= |t|
      && if ms.rest.NoMembers? then c == i + |PrintMembers(ms)|
         else
           && At(t, c, ",") && At(t, c + 1, PrintMembers(ms.rest))
           && c + 1 + |PrintMembers(ms.rest)| == i + |PrintMembers(ms)|
  {
    hide At, Print, Label;
    var name := Label(ms.pre, ms.key, ms.mid, ms.aft);
    AtInside(t, i, PrintMembers(ms));
    ListParts(t, i, name, Print(ms.value), ms.post, if ms.rest.NoMembers? then "" else "," + PrintMembers(ms.rest));
    if ms.rest.Member? {
      AtConcat(t, i + |name| + |Print(ms.value)| + |ms.post|, ",", PrintMembers(ms.rest));
    }
  }

  lemma {:induction false} ListParts(t: string, i: nat, head: string, value: string, post: string, tail: string)
    requires At(t, i, head + value + post + tail)
    ensures
      var b := i + |head| + |value|;
      At(t, i, head) && At(t, i + |head|, value) && At(t, b, post) && At(t, b + |post|, tail)
  {
    hide At;
    AtConcat4(t, i, head, value, post, tail);
  }

  lemma {:induction false} LabelLayout(t: string, i: nat, pre: string, key: string, mid: string, aft: string)
    requires At(t, i, Label(pre, key, mid, aft))
    ensures
      var j := i + |pre| + |key| + 2;
      && At(t, i, pre) && At(t, i + |pre|, Quoted(key)) && At(t, j, mid) && At(t, j + |mid|, ":")
      && At(t, j + |mid| + 1, aft) && j + |mid| + 1 + |aft| == i + |Label(pre, key, mid, aft)|
  {
    hide At;
    AtConcat(t, i, pre + Quoted(key) + mid + ":", aft);
    QuotedLength(key);
    hide Quoted;
    AtConcat4(t, i, pre, Quoted(key), mid, ":");
  }

  lemma {:induction false} QuotedLength(body: string)
    ensures |Quoted(body)| == |body| + 2
  {
  }

  lemma {:induction false} AtJoin(t: string, i: nat, a: string, b: string)
    requires At(t, i, a) && At(t, i + |a|, b)
    ensures At(t, i, a + b)
  {
    assert t[i..i + |a| + |b|] == t[i..i + |a|] + t[i + |a|..i + |a| + |b|];
  }
}
