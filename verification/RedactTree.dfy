/** Redaction of decoded captures (internal/admin/capture_redact.go): secret-named members anywhere in
    the tree, also inside strings that themselves hold JSON. Decoding, encoding, the two regular
    expressions and the notion of a secret name belong to the environment. */
module RedactTree {
  import opened Options
  import opened GoStrings
  import opened RedactAssign

  const MAX_DEPTH: nat := 8
  const MAX_JSON_LEN: nat := 262144

  datatype Json =
    | JNull
    | JBool(b: bool)
    | JNumber(text: string)
    | JString(s: string)
    | JArray(items: seq<Json>)
    | JObject(members: map<string, Json>)

  /** `patterns`: a text after the authorization and credential patterns were replaced in it. */
  datatype Env = Env(
    secret: string -> bool, decode: string -> Option<Json>, encode: Json -> Option<string>, patterns: string -> string)

  /** Text that is no JSON: the patterns first, then every secret assignment. */
  function Scrub(env: Env, s: string): string {
    var t := env.patterns(s);
    SpansOrdered(t, 0, 0, env.secret);
    Splice(t, 0, Spans(t, 0, env.secret))
  }

  /** Decoding the text of a redacted tree gives that tree, if it encodes at all. Nothing is asked of
      trees that redaction never encodes, such as strings that are no valid UTF-8. */
  ghost predicate RoundTrips(env: Env, s: string, depth: nat) {
    env.decode(s).Some? ==>
      var r := RedactValue(env, "", env.decode(s).value, depth);
      env.encode(r).Some? ==> env.decode(env.encode(r).value) == Some(r)
  }

  /** What is used of encoding/json: redacted decoded text survives encoding, the marker is no JSON text,
      and the text of a string, array or object begins with its quote or bracket. */
  ghost predicate Lawful(env: Env) {
    && (forall s, depth :: RoundTrips(env, s, depth))
    && env.decode(MARKER) == None
    && (forall s :: env.decode(s).Some? && !IsScalar(env.decode(s).value) ==> LooksLikeJson(s))
  }

  predicate IsScalar(v: Json) {
    v.JNull? || v.JBool? || v.JNumber?
  }

  predicate LooksLikeJson(s: string) {
    var trimmed := TrimSpace(s);
    trimmed != "" && (trimmed[0] == '{' || trimmed[0] == '[' || trimmed[0] == '"')
  }

  function Left(depth: nat): nat {
    if depth < MAX_DEPTH then MAX_DEPTH - depth else 0
  }

  predicate SecretName(env: Env, key: string) {
    key != "" && env.secret(key)
  }

  /** Terminates by depth alone, although a decoded string can be any value. */
  function RedactValue(env: Env, key: string, v: Json, depth: nat): Json
    decreases Left(depth), 0
  {
    if SecretName(env, key) then JString(MARKER)
    else if depth >= MAX_DEPTH then (if IsScalar(v) then v else JString(MARKER))
    else match v
      case JObject(members) => JObject(map k | k in members :: RedactValue(env, k, members[k], depth + 1))
      case JArray(items) =>
        JArray(seq(|items|, i requires 0 <= i < |items| => RedactValue(env, "", items[i], depth + 1)))
      case JString(s) => JString(RedactString(env, s, depth + 1))
      case _ => v
  }

  function RedactString(env: Env, s: string, depth: nat): string
    decreases Left(depth), 1
  {
    if |s| > MAX_JSON_LEN then (if LooksLikeJson(s) then MARKER else Scrub(env, s))
    else match env.decode(s)
      case None => Scrub(env, s)
      case Some(nested) =>
        if depth >= MAX_DEPTH then MARKER
        else match env.encode(RedactValue(env, "", nested, depth))
          case None => MARKER
          case Some(body) => body
  }

  // ---------------------------------------------------------------- paths

  /** One step into a value; `Nested` looks inside a string that holds JSON. */
  datatype Seg = Key(name: string) | Index(i: nat) | Nested

  function Child(env: Env, v: Json, seg: Seg): Option<Json> {
    match seg
    case Key(k) => if v.JObject? && k in v.members then Some(v.members[k]) else None
    case Index(i) => if v.JArray? && i < |v.items| then Some(v.items[i]) else None
    case Nested => if v.JString? then env.decode(v.s) else None
  }

  function Follow(env: Env, v: Json, path: seq<Seg>): Option<Json>
    decreases |path|
  {
    if path == [] then Some(v)
    else match Child(env, v, path[0])
      case None => None
      case Some(c) => Follow(env, c, path[1..])
  }

  predicate SecretSeg(env: Env, seg: Seg) {
    seg.Key? && SecretName(env, seg.name)
  }

  /** Redaction lets one step at `depth` through: the limits of depth and length are not met, the member
      is not secret, and a string re-encodes. */
  predicate Open(env: Env, v: Json, seg: Seg, depth: nat) {
    && depth < MAX_DEPTH && !SecretSeg(env, seg)
    && (seg.Nested? ==>
          && depth + 1 < MAX_DEPTH && v.JString? && |v.s| <= MAX_JSON_LEN && env.decode(v.s).Some?
          && env.encode(RedactValue(env, "", env.decode(v.s).value, depth + 1)).Some?)
  }

  predicate Clear(env: Env, v: Json, path: seq<Seg>, depth: nat)
    decreases |path|
  {
    path != [] ==>
      && Open(env, v, path[0], depth)
      && Child(env, v, path[0]).Some? && Clear(env, Child(env, v, path[0]).value, path[1..], depth + 1)
  }

  /** An overlong string whose whole text is a number, boolean or null is not decoded and not marked. */
  predicate HidesLongScalar(env: Env, v: Json, seg: Seg) {
    && seg.Nested? && v.JString? && |v.s| > MAX_JSON_LEN
    && env.decode(v.s).Some? && IsScalar(env.decode(v.s).value) && !LooksLikeJson(v.s)
  }

  predicate EndsInLongScalar(env: Env, v: Json, path: seq<Seg>)
    decreases |path|
  {
    path != [] &&
    if |path| == 1 then HidesLongScalar(env, v, path[0])
    else Child(env, v, path[0]).Some? && EndsInLongScalar(env, Child(env, v, path[0]).value, path[1..])
  }

  /** Walking down `path` meets the marker, at its end or on the way. */
  predicate MeetsMarker(env: Env, v: Json, path: seq<Seg>)
    decreases |path|
  {
    v == JString(MARKER)
    || (path != [] && Child(env, v, path[0]).Some? && MeetsMarker(env, Child(env, v, path[0]).value, path[1..]))
  }

  /** A secret name below the first value, at every place a decoded key can be. */
  predicate NamesSecret(env: Env, path: seq<Seg>) {
    exists j :: 0 <= j < |path| && SecretSeg(env, path[j])
  }

  // ---------------------------------------------------------------- results

  lemma {:induction false} OpenChild(env: Env, v: Json, seg: Seg, depth: nat)
    requires Lawful(env) && Child(env, v, seg).Some? && Open(env, v, seg, depth)
    ensures Child(env, RedactValue(env, "", v, depth), seg)
         == Some(RedactValue(env, "", Child(env, v, seg).value, depth + 1))
  {
    if seg.Key? {
      var child := v.members[seg.name];
      assert RedactValue(env, seg.name, child, depth + 1) == RedactValue(env, "", child, depth + 1);
    } else if seg.Nested? {
      assert RoundTrips(env, v.s, depth + 1);
    }
  }

  lemma {:induction false} ClosedChild(env: Env, v: Json, seg: Seg, depth: nat)
    requires Lawful(env) && Child(env, v, seg).Some? && !Open(env, v, seg, depth)
    requires !HidesLongScalar(env, v, seg)
    ensures
      var r := RedactValue(env, "", v, depth);
      r == JString(MARKER) || Child(env, r, seg) == Some(JString(MARKER))
  {
  }

  /** Redaction commutes with walking down a clear path. */
  lemma {:induction false} ClearPathCommutes(env: Env, v: Json, path: seq<Seg>, depth: nat)
    requires Lawful(env) && Clear(env, v, path, depth) && Follow(env, v, path).Some?
    ensures Follow(env, RedactValue(env, "", v, depth), path)
         == Some(RedactValue(env, "", Follow(env, v, path).value, depth + |path|))
    decreases |path|
  {
    hide RedactValue;
    if path == [] {
    } else {
      OpenChild(env, v, path[0], depth);
      ClearPathCommutes(env, Child(env, v, path[0]).value, path[1..], depth + 1);
    }
  }

  /** Every other path meets the marker, except one that ends in an overlong string holding a scalar. */
  lemma {:induction false} BlockedPathMeetsMarker(env: Env, v: Json, path: seq<Seg>, depth: nat)
    requires Lawful(env) && Follow(env, v, path).Some? && !Clear(env, v, path, depth)
    requires !EndsInLongScalar(env, v, path)
    ensures MeetsMarker(env, RedactValue(env, "", v, depth), path)
    decreases |path|
  {
    hide RedactValue;
    var child := Child(env, v, path[0]).value;
    if Open(env, v, path[0], depth) {
      OpenChild(env, v, path[0], depth);
      BlockedPathMeetsMarker(env, child, path[1..], depth + 1);
    } else {
      if path[1..] != [] {
        ScalarsEndPaths(env, child, path[1..]);
      }
      ClosedChild(env, v, path[0], depth);
    }
  }

  lemma {:induction false} ScalarsEndPaths(env: Env, v: Json, path: seq<Seg>)
    requires path != [] && Follow(env, v, path).Some?
    ensures !IsScalar(v)
  {
  }

  lemma {:induction false} SecretBlocks(env: Env, v: Json, path: seq<Seg>, depth: nat)
    requires NamesSecret(env, path)
    ensures !Clear(env, v, path, depth)
    decreases |path|
  {
    var j :| 0 <= j < |path| && SecretSeg(env, path[j]);
    if j > 0 && Child(env, v, path[0]).Some? {
      assert path[1..][j - 1] == path[j];
      SecretBlocks(env, Child(env, v, path[0]).value, path[1..], depth + 1);
    }
  }

  /** Main result: every secret-named member reached through objects, arrays and decodable strings is
      behind the marker. */
  lemma {:induction false} EverySecretMeetsMarker(env: Env, v: Json, path: seq<Seg>)
    requires Lawful(env) && Follow(env, v, path).Some? && path != [] && SecretSeg(env, path[|path| - 1])
    ensures MeetsMarker(env, RedactValue(env, "", v, 0), path)
  {
    SecretBlocks(env, v, path, 0);
    KeysEndNoString(env, v, path);
    BlockedPathMeetsMarker(env, v, path, 0);
  }

  lemma {:induction false} KeysEndNoString(env: Env, v: Json, path: seq<Seg>)
    requires path != [] && !path[|path| - 1].Nested?
    ensures !EndsInLongScalar(env, v, path)
    decreases |path|
  {
    if |path| == 1 {
    } else if Child(env, v, path[0]).Some? {
      KeysEndNoString(env, Child(env, v, path[0]).value, path[1..]);
    }
  }

  /** Its partner: numbers, booleans and nulls come through exactly on clear paths, and there objects
      keep their keys and arrays their length down to the depth limit. */
  lemma {:induction false} ClearPathsKeepValues(env: Env, v: Json, path: seq<Seg>)
    requires Lawful(env) && Follow(env, v, path).Some? && !EndsInLongScalar(env, v, path)
    ensures
      var x := Follow(env, v, path).value;
      var r := Follow(env, RedactValue(env, "", v, 0), path);
      && (IsScalar(x) ==> (r == Some(x) <==> Clear(env, v, path, 0)))
      && (Clear(env, v, path, 0) && |path| < MAX_DEPTH && x.JObject? ==>
            r.Some? && r.value.JObject? && r.value.members.Keys == x.members.Keys)
      && (Clear(env, v, path, 0) && |path| < MAX_DEPTH && x.JArray? ==>
            r.Some? && r.value.JArray? && |r.value.items| == |x.items|)
  {
    if Clear(env, v, path, 0) {
      ClearPathCommutes(env, v, path, 0);
    } else {
      BlockedPathMeetsMarker(env, v, path, 0);
      MarkerHidesScalars(env, RedactValue(env, "", v, 0), path);
    }
  }

  /** A string that redaction treats as text and not as JSON. */
  predicate IsText(env: Env, s: string) {
    if |s| > MAX_JSON_LEN then !LooksLikeJson(s) else env.decode(s).None?
  }

  /** From tree to text: on a clear path a text comes out as the text after the patterns with ordered
      spans replaced. The value of a secret assignment in it is such a span if and only if its name does
      not begin inside one, and it is hidden if and only if, besides, the span its name begins in reaches
      as far or the value is empty. Overlong scalars are text. */
  lemma {:induction false} TextsAreScrubbed(env: Env, v: Json, path: seq<Seg>, s: string, n: nat)
    requires Lawful(env) && Follow(env, v, path) == Some(JString(s)) && IsText(env, s)
    requires Clear(env, v, path, 0) && |path| < MAX_DEPTH
    ensures
      var t := env.patterns(s);
      var spans := Spans(t, 0, env.secret);
      && Ordered(spans, 0, |t|)
      && Follow(env, RedactValue(env, "", v, 0), path) == Some(JString(Splice(t, 0, spans)))
      && (SecretAt(t, n, env.secret).Some? ==>
            && (Own(t, n, env.secret) in spans <==> !Replaced(spans, n))
            && (Hidden(t, n, env.secret) <==> HiddenWhen(t, n, env.secret)))
  {
    hide Spans, Splice, Ordered, SecretAt, Hidden, HiddenWhen, Replaced, Own;
    var t := env.patterns(s);
    SpansOrdered(t, 0, 0, env.secret);
    ClearPathCommutes(env, v, path, 0);
    if SecretAt(t, n, env.secret).Some? {
      OwnValueIsReplacedExactly(t, n, env.secret);
      ValueIsHiddenExactly(t, n, env.secret);
    }
  }

  lemma {:induction false} MarkerHidesScalars(env: Env, v: Json, path: seq<Seg>)
    requires Lawful(env) && MeetsMarker(env, v, path)
    ensures Follow(env, v, path).Some? ==> !IsScalar(Follow(env, v, path).value)
    decreases |path|
  {
    if path != [] && v != JString(MARKER) {
      MarkerHidesScalars(env, Child(env, v, path[0]).value, path[1..]);
    }
  }

  /** Over objects and arrays alone, the clear paths are those without a secret name and at most eight
      steps long. */
  lemma {:induction false} PlainPathIsClear(env: Env, v: Json, path: seq<Seg>, depth: nat)
    requires Follow(env, v, path).Some? && depth <= MAX_DEPTH && forall j :: 0 <= j < |path| ==> !path[j].Nested?
    ensures Clear(env, v, path, depth) <==> !NamesSecret(env, path) && depth + |path| <= MAX_DEPTH
    decreases |path|
  {
    if path == [] {
    } else {
      var rest := path[1..];
      if depth < MAX_DEPTH {
        PlainPathIsClear(env, Child(env, v, path[0]).value, rest, depth + 1);
      }
      assert NamesSecret(env, path) <==> SecretSeg(env, path[0]) || NamesSecret(env, rest) by {
        if j :| 0 <= j < |rest| && SecretSeg(env, rest[j]) {
          assert path[j + 1] == rest[j];
        }
        if j :| 0 < j < |path| && SecretSeg(env, path[j]) {
          assert rest[j - 1] == path[j];
        }
      }
    }
  }

  // ---------------------------------------------------------------- secrets leave no trace

  /** The two values are the same, except below secret names, also inside strings that hold JSON, and
      below the depth limit, where only scalars are seen. */
  ghost predicate AlikeButSecrets(env: Env, v: Json, w: Json, depth: nat)
    decreases Left(depth), 0
  {
    if depth >= MAX_DEPTH then IsScalar(v) || IsScalar(w) ==> v == w
    else match v
      case JObject(ms) =>
        && w.JObject? && ms.Keys == w.members.Keys
        && forall k :: k in ms.Keys ==> SecretName(env, k) || AlikeButSecrets(env, ms[k], w.members[k], depth + 1)
      case JArray(xs) =>
        && w.JArray? && |xs| == |w.items|
        && forall i :: 0 <= i < |xs| ==> AlikeButSecrets(env, xs[i], w.items[i], depth + 1)
      case JString(s) => w.JString? && TextsAlike(env, s, w.s, depth + 1)
      case _ => v == w
  }

  ghost predicate TextsAlike(env: Env, s: string, t: string, depth: nat)
    decreases Left(depth), 1
  {
    || s == t
    || (|s| > MAX_JSON_LEN && |t| > MAX_JSON_LEN && LooksLikeJson(s) && LooksLikeJson(t))
    || (&& |s| <= MAX_JSON_LEN && |t| <= MAX_JSON_LEN && env.decode(s).Some? && env.decode(t).Some?
        && (depth >= MAX_DEPTH || AlikeButSecrets(env, env.decode(s).value, env.decode(t).value, depth)))
  }

  /** Main result: trees that differ only behind secret names become the same tree, so nothing of a secret
      member's value, not even its shape, shows in the output. No law on decoding is needed. */
  lemma {:induction false} SecretsLeaveNoTrace(env: Env, v: Json, w: Json, depth: nat)
    requires AlikeButSecrets(env, v, w, depth)
    ensures RedactValue(env, "", v, depth) == RedactValue(env, "", w, depth)
    decreases Left(depth), 0
  {
    if depth >= MAX_DEPTH {
    } else {
      match v
      case JObject(ms) =>
        forall k | k in ms.Keys
          ensures RedactValue(env, k, ms[k], depth + 1) == RedactValue(env, k, w.members[k], depth + 1)
        {
          MemberLeavesNoTrace(env, k, ms[k], w.members[k], depth + 1);
        }
      case JArray(xs) =>
        forall i | 0 <= i < |xs|
          ensures RedactValue(env, "", xs[i], depth + 1) == RedactValue(env, "", w.items[i], depth + 1)
        {
          SecretsLeaveNoTrace(env, xs[i], w.items[i], depth + 1);
        }
      case JString(s) => TextLeavesNoTrace(env, s, w.s, depth + 1);
      case _ =>
    }
  }

  lemma {:induction false} MemberLeavesNoTrace(env: Env, k: string, v: Json, w: Json, depth: nat)
    requires SecretName(env, k) || AlikeButSecrets(env, v, w, depth)
    ensures RedactValue(env, k, v, depth) == RedactValue(env, k, w, depth)
    decreases Left(depth), 1
  {
    if SecretName(env, k) {
    } else {
      SecretsLeaveNoTrace(env, v, w, depth);
      KeyOnlyHides(env, k, v, depth);
      KeyOnlyHides(env, k, w, depth);
    }
  }

  lemma {:induction false} KeyOnlyHides(env: Env, k: string, v: Json, depth: nat)
    requires !SecretName(env, k)
    ensures RedactValue(env, k, v, depth) == RedactValue(env, "", v, depth)
  {
  }

  lemma {:induction false} TextLeavesNoTrace(env: Env, s: string, t: string, depth: nat)
    requires TextsAlike(env, s, t, depth)
    ensures RedactString(env, s, depth) == RedactString(env, t, depth)
    decreases Left(depth), 1
  {
    if s != t && |s| <= MAX_JSON_LEN && depth < MAX_DEPTH {
      SecretsLeaveNoTrace(env, env.decode(s).value, env.decode(t).value, depth);
    }
  }

  // ---------------------------------------------------------------- a captured frame

  const ESCAPED_QUOTE := "\\\""

  predicate QuoteAt(s: string, i: nat) {
    i + 2 <= |s| && s[i..i + 2] == ESCAPED_QUOTE
  }

  /** The first escaped quote from `i` on. */
  function NextQuote(s: string, i: nat): (r: Option<nat>)
    ensures r.Some? ==> i <= r.value && QuoteAt(s, r.value) && forall k :: i <= k < r.value ==> !QuoteAt(s, k)
    ensures r.None? ==> forall k :: i <= k ==> !QuoteAt(s, k)
    decreases if i < |s| then |s| - i else 0
  {
    if i >= |s| then None else if QuoteAt(s, i) then Some(i) else NextQuote(s, i + 1)
  }

  /** The escaped quote at `q` opens a secret key that closes at the next one and is assigned. */
  predicate EscapedSecretAt(env: Env, s: string, q: nat) {
    QuoteAt(s, q) &&
    match NextQuote(s, q + 2)
    case None => false
    case Some(e) =>
      var separator := SkipWhile(s, e + 2, JsonText.IsSpace);
      env.secret(s[q + 2..e]) && separator < |s| && (s[separator] == ':' || s[separator] == '=')
  }

  /** A text with a secret name between escaped quotes, then white space and a colon or an equals sign. */
  ghost predicate EscapedLayout(
    env: Env, s: string, before: string, name: string, spaces: string, sign: string, rest: string)
  {
    && s == before + "\\\"" + name + "\\\"" + spaces + sign + rest && env.secret(name)
    && (forall i :: 0 < i < |name| ==> name[i - 1] != '\\' || name[i] != '"')
    && (forall i :: 0 <= i < |spaces| ==> spaces[i] in {' ', '\t', '\r', '\n'}) && (sign == ":" || sign == "=")
  }

  ghost predicate ShowsEscapedSecret(env: Env, s: string) {
    exists before, name, spaces, sign, rest :: EscapedLayout(env, s, before, name, spaces, sign, rest)
  }

  lemma {:induction false} SecretHasLayout(env: Env, s: string, q: nat)
    requires EscapedSecretAt(env, s, q)
    ensures ShowsEscapedSecret(env, s)
  {
    hide SkipWhile, NextQuote;
    var e := NextQuote(s, q + 2).value;
    var separator := SkipWhile(s, e + 2, JsonText.IsSpace);
    var name, spaces, sign := s[q + 2..e], s[e + 2..separator], [s[separator]];
    assert QuoteAt(s, e);
    CutInPieces(s, q, e, separator);
    forall i | 0 < i < |name| ensures name[i - 1] != '\\' || name[i] != '"' {
      NoQuoteAt(s, q + 1 + i);
    }
    assert EscapedLayout(env, s, s[..q], name, spaces, sign, s[separator + 1..]);
  }

  lemma {:induction false} CutInPieces(s: string, q: nat, e: nat, separator: nat)
    requires q + 2 <= e && e + 2 <= separator < |s| && s[q..q + 2] == s[e..e + 2] == ESCAPED_QUOTE
    ensures s == s[..q] + "\\\"" + s[q + 2..e] + "\\\"" + s[e + 2..separator] + [s[separator]] + s[separator + 1..]
  {
    assert s == s[..q] + s[q..q + 2] + s[q + 2..e] + s[e..e + 2] + s[e + 2..separator] + [s[separator]]
                + s[separator + 1..];
  }

  lemma {:induction false} NoQuoteAt(s: string, k: nat)
    requires !QuoteAt(s, k) && k + 2 <= |s|
    ensures s[k] != '\\' || s[k + 1] != '"'
  {
    assert s[k..k + 2] == [s[k], s[k + 1]];
  }

  lemma {:induction false} LayoutIsSecret(
    env: Env, s: string, before: string, name: string, spaces: string, sign: string, rest: string)
    requires EscapedLayout(env, s, before, name, spaces, sign, rest)
    ensures EscapedSecretAt(env, s, |before|)
  {
    hide SkipWhile, NextQuote;
    var q := |before|;
    var e := q + 2 + |name|;
    var separator := e + 2 + |spaces|;
    LayoutPieces(before, name, spaces, sign, rest);
    forall k | q + 2 <= k < e ensures !QuoteAt(s, k) {
      assert s[k] == name[k - q - 2] && s[k + 1] == if k + 1 < e then name[k - q - 1] else '\\';
      assert k + 2 <= |s| ==> s[k..k + 2] == [s[k], s[k + 1]];
    }
    assert QuoteAt(s, e) && QuoteAt(s, q);
    FirstQuote(s, q + 2, e);
    forall k | e + 2 <= k < separator ensures JsonText.IsSpace(s[k]) {
      assert s[k] == spaces[k - e - 2];
    }
    assert SkipWhile(s, e + 2, JsonText.IsSpace) == separator;
  }

  lemma {:induction false} FirstQuote(s: string, i: nat, e: nat)
    requires i <= e && QuoteAt(s, e) && forall k :: i <= k < e ==> !QuoteAt(s, k)
    ensures NextQuote(s, i) == Some(e)
  {
    hide NextQuote, QuoteAt;
  }

  lemma {:induction false} LayoutPieces(before: string, name: string, spaces: string, sign: string, rest: string)
    requires |sign| == 1
    ensures
      var s := before + "\\\"" + name + "\\\"" + spaces + sign + rest;
      var q := |before|;
      var e := q + 2 + |name|;
      var separator := e + 2 + |spaces|;
      && separator < |s| && s[q..q + 2] == ESCAPED_QUOTE && s[q + 2..e] == name && s[e..e + 2] == ESCAPED_QUOTE
      && s[e + 2..separator] == spaces && s[separator] == sign[0] && s[e] == '\\'
  {
  }

  lemma {:induction false} EscapedExactly(env: Env, s: string)
    ensures ShowsEscapedSecret(env, s) <==> exists q :: EscapedSecretAt(env, s, q)
  {
    hide EscapedSecretAt, EscapedLayout;
    if q: nat :| EscapedSecretAt(env, s, q) {
      SecretHasLayout(env, s, q);
    }
    if before, name, spaces, sign, rest :| EscapedLayout(env, s, before, name, spaces, sign, rest) {
      LayoutIsSecret(env, s, before, name, spaces, sign, rest);
    }
  }

  /** Every escaped quote is tried as an opening, so earlier quotes cannot hide a later key. */
  method HasEscapedSecretAssignment(env: Env, s: string) returns (found: bool)
    ensures found <==> ShowsEscapedSecret(env, s)
  {
    hide EscapedSecretAt, QuoteAt, NextQuote, ShowsEscapedSecret;
    EscapedExactly(env, s);
    var searchFrom := 0;
    while searchFrom < |s|
      invariant forall q :: 0 <= q < searchFrom ==> !EscapedSecretAt(env, s, q)
      decreases |s| - searchFrom
    {
      var keyQuote := NextQuote(s, searchFrom);
      NoKeyBefore(env, s, searchFrom);
      if keyQuote.None? {
        return false;
      }
      var keyEnd := NextQuote(s, keyQuote.value + 2);
      if keyEnd.None? {
        NoLaterKey(env, s, keyQuote.value);
        return false;
      }
      var isSecret := IsAssigned(env, s, keyQuote.value, keyEnd.value);
      if isSecret {
        return true;
      }
      searchFrom := keyQuote.value + 1;
    }
    NoKeyBefore(env, s, searchFrom);
    return false;
  }

  method IsAssigned(env: Env, s: string, keyQuote: nat, keyEnd: nat) returns (r: bool)
    requires QuoteAt(s, keyQuote) && NextQuote(s, keyQuote + 2) == Some(keyEnd)
    ensures r == EscapedSecretAt(env, s, keyQuote)
  {
    hide SkipWhile, NextQuote;
    var separator := Skip(s, keyEnd + 2, JsonText.IsSpace);
    r := env.secret(s[keyQuote + 2..keyEnd]) && separator < |s| && (s[separator] == ':' || s[separator] == '=');
  }

  lemma {:induction false} NoKeyBefore(env: Env, s: string, i: nat)
    ensures match NextQuote(s, i)
            case None => forall q :: i <= q ==> !EscapedSecretAt(env, s, q)
            case Some(e) => QuoteAt(s, e) && i <= e < |s| && forall q :: i <= q < e ==> !EscapedSecretAt(env, s, q)
    ensures i >= |s| ==> NextQuote(s, i).None?
  {
    hide SkipWhile;
  }

  lemma {:induction false} NoLaterKey(env: Env, s: string, q: nat)
    requires QuoteAt(s, q) && NextQuote(s, q + 2).None?
    ensures forall k :: q <= k ==> !EscapedSecretAt(env, s, k)
  {
    assert !QuoteAt(s, q + 1) by {
      assert s[q..q + 2][1] == '"';
      if q + 3 <= |s| {
        assert s[q + 1..q + 3][0] == '"';
      }
    }
  }

  const INVALID := "[REDACTED: invalid captured JSON]"

  /** The whole frame: text that does not decode is marked outright when an escaped secret shows. */
  method RedactParams(env: Env, raw: string) returns (r: string)
    ensures env.decode(raw) == None ==>
      r == if ShowsEscapedSecret(env, raw) then MARKER else Scrub(env, raw)
    ensures env.decode(raw).Some? ==>
      var body := env.encode(RedactValue(env, "", env.decode(raw).value, 0));
      r == if body.Some? then body.value else INVALID
    ensures env.decode(raw).Some? ==>
      var tree := RedactValue(env, "", env.decode(raw).value, 0);
      Lawful(env) && env.encode(tree).Some? ==> env.decode(r) == Some(tree)
  {
    var value := env.decode(raw);
    if value.None? {
      var found := HasEscapedSecretAssignment(env, raw);
      if found {
        return MARKER;
      }
      r := RedactNamedAssignments(env.patterns(raw), env.secret);
      return;
    }
    var body := env.encode(RedactValue(env, "", value.value, 0));
    assert Lawful(env) ==> RoundTrips(env, raw, 0);
    return if body.None? then INVALID else body.value;
  }
}
