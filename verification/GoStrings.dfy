/** The string functions of Go's standard library that the modelled code calls. */
module GoStrings {

  predicate HasPrefix(s: string, p: string) {
    |p| <= |s| && s[..|p|] == p
  }

  predicate HasSuffix(s: string, p: string) {
    |p| <= |s| && s[|s| - |p|..] == p
  }

  function TrimSuffix(s: string, p: string): string {
    if HasSuffix(s, p) then s[..|s| - |p|] else s
  }

  /** ASCII white space as strings.TrimSpace sees it. */
  predicate IsTrimmed(c: char) {
    c == ' ' || c == '\t' || c == '\n' || c as int == 11 || c as int == 12 || c == '\r'
  }

  function TrimLeft(s: string): string {
    if s != "" && IsTrimmed(s[0]) then TrimLeft(s[1..]) else s
  }

  function TrimRight(s: string): string {
    if s != "" && IsTrimmed(s[|s| - 1]) then TrimRight(s[..|s| - 1]) else s
  }

  function TrimSpace(s: string): string {
    TrimRight(TrimLeft(s))
  }

  /** strings.ReplaceAll(s, "\r\n", "\n"). */
  function CollapseCrlf(s: string): string {
    if s == "" then ""
    else if |s| >= 2 && s[0] == '\r' && s[1] == '\n' then "\n" + CollapseCrlf(s[2..])
    else [s[0]] + CollapseCrlf(s[1..])
  }

  /** strings.ReplaceAll(s, "\r", "\n"). */
  function CrToLf(s: string): string {
    if s == "" then "" else [if s[0] == '\r' then '\n' else s[0]] + CrToLf(s[1..])
  }

  /** strings.Split with a one-character separator: always at least one piece. */
  function Split(s: string, sep: char): (r: seq<string>)
    ensures |r| >= 1
  {
    if s == "" then [""]
    else
      var rest := Split(s[1..], sep);
      if s[0] == sep then [""] + rest else [[s[0]] + rest[0]] + rest[1..]
  }

  /** The decimal numeral of a natural number, as %d prints it. */
  function Decimal(n: nat): (r: string)
    ensures r != "" && forall i :: 0 <= i < |r| ==> '0' <= r[i] <= '9'
  {
    if n < 10 then [Digit(n)] else Decimal(n / 10) + [Digit(n % 10)]
  }

  function Digit(d: nat): (c: char)
    requires d < 10
    ensures '0' <= c <= '9' && c as int - '0' as int == d
  {
    '0' + d as char
  }

  /** The number a run of digits stands for. */
  function Number(s: string): nat
    requires forall i :: 0 <= i < |s| ==> '0' <= s[i] <= '9'
  {
    if s == "" then 0 else 10 * Number(s[..|s| - 1]) + (s[|s| - 1] as int - '0' as int)
  }

  lemma {:induction false} NumberOfDecimal(n: nat)
    ensures Number(Decimal(n)) == n
  {
    if n < 10 {
      assert Decimal(n)[..0] == "";
    } else {
      NumberOfDecimal(n / 10);
      assert Decimal(n)[..|Decimal(n)| - 1] == Decimal(n / 10);
    }
  }

  predicate StartsCrlf(s: string) {
    |s| >= 2 && s[0] == '\r' && s[1] == '\n'
  }

  /** One turn of the replacement: what it writes and how much it reads. */
  lemma {:induction false} CollapseFirst(s: string)
    requires s != ""
    ensures StartsCrlf(s) ==> CollapseCrlf(s) == "\n" + CollapseCrlf(s[2..])
    ensures !StartsCrlf(s) ==> CollapseCrlf(s) == [s[0]] + CollapseCrlf(s[1..])
  {
  }

  lemma {:induction false} SameStart(a: string, b: string)
    requires a != "" && !(b != "" && a[|a| - 1] == '\r' && b[0] == '\n')
    ensures StartsCrlf(a + b) == StartsCrlf(a)
    ensures StartsCrlf(a) ==> (a + b)[2..] == a[2..] + b
    ensures (a + b)[1..] == a[1..] + b && (a + b)[0] == a[0]
  {
  }

  lemma {:induction false} CollapseConcat(a: string, b: string)
    requires !(a != "" && b != "" && a[|a| - 1] == '\r' && b[0] == '\n')
    ensures CollapseCrlf(a + b) == CollapseCrlf(a) + CollapseCrlf(b)
    decreases |a|
  {
    hide CollapseCrlf;
    if a == "" {
      CollapseEmpty();
      assert a + b == b;
    } else {
      SameStart(a, b);
      CollapseFirst(a);
      CollapseFirst(a + b);
      var k := if StartsCrlf(a) then 2 else 1;
      var c := if StartsCrlf(a) then "\n" else [a[0]];
      hide StartsCrlf;
      CollapseConcat(a[k..], b);
      PutFirst(c, CollapseCrlf(a[k..]), CollapseCrlf(b));
    }
  }

  lemma {:induction false} PutFirst(c: string, x: string, y: string)
    ensures c + (x + y) == c + x + y
  {
  }

  lemma {:induction false} CollapseEmpty()
    ensures CollapseCrlf("") == ""
  {
  }
}
