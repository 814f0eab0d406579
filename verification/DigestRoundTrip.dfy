/** Built credentials survive printing and parsing, and verify for the password, method and body they were made for, and no others. */
module DigestRoundTrip {
  import opened Bytes
  import opened DigestParams
  import opened DigestPrinting
  import opened Digest

  // ------------------------------------------------------------------ names

  lemma {:induction false} LowerKeeps(s: string)
    requires forall i :: 0 <= i < |s| ==> !('A' <= s[i] <= 'Z')
    ensures Lower(s) == s
  {
    if s != "" {
      LowerKeeps(s[1..]);
    }
  }

  lemma {:induction false} UpperIs(s: string, t: string)
    requires |s| == |t| && forall i :: 0 <= i < |s| ==> UpperChar(s[i]) == t[i]
    ensures Upper(s) == t
  {
    if s != "" {
      UpperIs(s[1..], t[1..]);
    }
  }

  predicate NameChar(c: char) {
    'A' <= c <= 'Z' || 'a' <= c <= 'z' || '0' <= c <= '9' || c == '-'
  }

  /** A name of plain characters, with its upper-case form. */
  predicate Spelled(s: string, upper: string) {
    s != "" && |s| == |upper| && forall i :: 0 <= i < |s| ==> NameChar(s[i]) && UpperChar(s[i]) == upper[i]
  }

  function UpperName(a: Algorithm): string {
    match a
    case Algorithm(MD5, false) => "MD5"
    case Algorithm(MD5, true) => "MD5-SESS"
    case Algorithm(SHA256, false) => "SHA-256"
    case Algorithm(SHA256, true) => "SHA-256-SESS"
    case Algorithm(SHA512_256, false) => "SHA-512-256"
    case Algorithm(SHA512_256, true) => "SHA-512-256-SESS"
  }

  lemma NamesAreSpelled(a: Algorithm)
    ensures Spelled(Name(a), UpperName(a)) && Alias(UpperName(a)) == Some(a)
  {
  }

  /** Names of plain characters are read as they stand, quoted or not. */
  lemma SpelledStands(s: string, upper: string)
    requires Spelled(s, upper)
    ensures Strip(s) == s && StripQuotes(s) == s && Upper(s) == upper && IsToken(s)
  {
    UpperIs(s, upper);
    assert NameChar(s[0]) && NameChar(s[|s| - 1]);
    hide Strip, Upper;
    StripsNothing(s);
  }

  lemma NameIsKnown(a: Algorithm)
    ensures Normalize(Some(Name(a))) == Some(a) && IsToken(Name(a)) && Name(a) != ""
  {
    NamesAreSpelled(a);
    hide *;
    SpelledStands(Name(a), UpperName(a));
    NormalizesTo(Name(a), a);
  }

  lemma NormalizesTo(s: string, a: Algorithm)
    requires s != "" && Strip(s) == s && StripQuotes(s) == s && Alias(Upper(s)) == Some(a)
    ensures Normalize(Some(s)) == Some(a) && s != ""
  {
    hide Strip, StripQuotes, Alias, Upper;
  }

  lemma QopNameIsKnown(q: Qop)
    requires q != NoQop
    ensures NormalizeQop(Some(QopName(q))) == Ok(q) && IsToken(QopName(q))
  {
    var s := QopName(q);
    LowerKeeps(s);
    hide Strip, Lower;
    StripsNothing(s);
    assert StripQuotes(s) == s;
  }

  // ------------------------------------------------------------------ printing and parsing

  const REQUIRED := {"username", "realm", "nonce", "uri", "response", "algorithm"}
  const KNOWN := REQUIRED + {"qop", "nc", "cnonce", "opaque"}

  /** The parameters that a built header has. */
  ghost predicate Complete(params: Params) {
    && REQUIRED <= params.Keys <= KNOWN
    && ("qop" in params <==> "nc" in params) && ("qop" in params ==> "cnonce" in params)
  }

  predicate IsToken(s: string) {
    Plain(s, InValue) && (s != "" ==> s[0] != '"')
  }

  predicate Letters(s: string) {
    s != "" && forall i :: 0 <= i < |s| ==> 'a' <= s[i] <= 'z'
  }

  lemma FirstKeys()
    ensures Letters("username") && Letters("realm") && Letters("nonce") && Letters("uri")
  {
  }

  lemma OtherKeys()
    ensures Letters("response") && Letters("algorithm") && Letters("qop") && Letters("nc") && Letters("cnonce") && Letters("opaque")
  {
  }

  lemma LettersAreGood(f: Field)
    requires Letters(f.key) && (f.Token? ==> IsToken(f.value))
    ensures Good(f)
  {
    LowerKeeps(f.key);
  }

  function RequiredFields(params: Params): seq<Field> {
    [Quoted("username", Get(params, "username")), Quoted("realm", Get(params, "realm")), Quoted("nonce", Get(params, "nonce")),
     Quoted("uri", Get(params, "uri")), Quoted("response", Get(params, "response")), Token("algorithm", Get(params, "algorithm"))]
  }

  function QopFields(params: Params): seq<Field> {
    if "qop" in params
    then [Token("qop", params["qop"]), Token("nc", Get(params, "nc")), Quoted("cnonce", Get(params, "cnonce"))]
    else Optional(params, "cnonce", true)
  }

  function AllFields(params: Params): seq<Field> {
    RequiredFields(params) + QopFields(params) + Optional(params, "opaque", true)
  }

  lemma HeaderHasAllFields(params: Params)
    ensures HeaderFields(params) == AllFields(params) && AllFields(params) != []
  {
  }

  lemma FieldsAreGood(params: Params)
    requires IsToken(Get(params, "algorithm")) && IsToken(Get(params, "qop")) && IsToken(Get(params, "nc"))
    ensures forall f :: f in AllFields(params) ==> Good(f)
  {
    FirstKeys();
    OtherKeys();
    hide IsToken, Good, Letters;
    forall f | f in AllFields(params)
      ensures Good(f)
    {
      LettersAreGood(f);
    }
  }

  /** Assigning fields that say what `all` says gives a part of `all`, with every field's key in it. */
  lemma {:induction false} AssignsPart(part: Params, fields: seq<Field>, all: Params)
    requires forall f :: f in fields ==> f.key in all && all[f.key] == f.value
    requires forall k :: k in part ==> k in all && all[k] == part[k]
    ensures var r := Assigned(part, fields);
            && (forall k :: k in r ==> k in all && all[k] == r[k])
            && (forall k :: k in part ==> k in r)
            && (forall f :: f in fields ==> f.key in r)
    decreases |fields|
  {
    if fields != [] {
      assert fields == [fields[0]] + fields[1..];
      AssignsPart(part[fields[0].key := fields[0].value], fields[1..], all);
    }
  }

  lemma FieldsSayTrue(params: Params)
    requires Complete(params)
    ensures forall f :: f in AllFields(params) ==> f.key in params && params[f.key] == f.value
  {
  }

  lemma AllAreSaid(params: Params, k: string) returns (f: Field)
    requires Complete(params) && k in params
    ensures f in AllFields(params) && f.key == k
  {
    hide RequiredFields, QopFields;
    if k in REQUIRED {
      f := RequiredSays(params, k);
    } else if k == "opaque" {
      f := Quoted("opaque", params["opaque"]);
    } else {
      f := QopSays(params, k);
    }
  }

  function RequiredSays(params: Params, k: string): (f: Field)
    requires k in REQUIRED
    ensures f in RequiredFields(params) && f.key == k
  {
    var fields := RequiredFields(params);
    if k == "username" then fields[0] else if k == "realm" then fields[1] else if k == "nonce" then fields[2]
    else if k == "uri" then fields[3] else if k == "response" then fields[4] else fields[5]
  }

  function QopSays(params: Params, k: string): (f: Field)
    requires Complete(params) && k in params && k in {"qop", "nc", "cnonce"}
    ensures f in QopFields(params) && f.key == k
  {
    var fields := QopFields(params);
    if "qop" !in params then fields[0] else if k == "qop" then fields[0] else if k == "nc" then fields[1] else fields[2]
  }

  /** Parsing a printed header gives back exactly the parameters that were printed. */
  lemma HeaderRoundTrip(params: Params)
    requires Complete(params)
    requires IsToken(Get(params, "algorithm")) && IsToken(Get(params, "qop")) && IsToken(Get(params, "nc"))
    ensures ParseParams("Digest " + PrintFields(HeaderFields(params))) == params
  {
    hide *;
    var fields := AllFields(params);
    FieldsAreGood(params);
    FieldsSayTrue(params);
    HeaderHasAllFields(params);
    FieldsRoundTrip(fields);
    AssignsPart(map[], fields, params);
    forall k
      ensures k in Assigned(map[], fields) <==> k in params
    {
      if k in params {
        var f := AllAreSaid(params, k);
      }
    }
  }

  // ------------------------------------------------------------------ digests

  predicate LowerHex(s: string) {
    s != "" && forall i :: 0 <= i < |s| ==> '0' <= s[i] <= '9' || 'a' <= s[i] <= 'f'
  }

  /** What hexdigest() looks like. */
  ghost predicate HexDigests(h: Hash) {
    (forall b, t :: LowerHex(h.text(b, t))) && (forall b, d :: LowerHex(h.body(b, d)))
  }

  /** Two different texts, or bodies, with one digest. */
  predicate TextsCollide(h: Hash, b: Base, t: string, t': string) {
    t != t' && h.text(b, t) == h.text(b, t')
  }

  predicate BodiesCollide(h: Hash, b: Base, d: seq<byte>, d': seq<byte>) {
    d != d' && h.body(b, d) == h.body(b, d')
  }

  lemma HexStands(s: string)
    requires LowerHex(s)
    ensures StripQuotes(Strip(s)) == s && Lower(s) == s && IsAscii(s) && ':' !in s
  {
    LowerKeeps(s);
    hide Strip, Lower;
    StripsNothing(s);
    assert StripQuotes(s) == s;
  }

  /** Text is determined by what is before and after its last colon. */
  lemma LastColon(a: string, b: string, a': string, b': string)
    requires ':' !in b && ':' !in b' && a + ":" + b == a' + ":" + b'
    ensures a == a' && b == b'
  {
    var s, s' := a + ":" + b, a' + ":" + b';
    forall k | |a| < k < |s|
      ensures s[k] != ':'
    {
      assert s[k] == b[k - |a| - 1];
    }
    forall k | |a'| < k < |s'|
      ensures s'[k] != ':'
    {
      assert s'[k] == b'[k - |a'| - 1];
    }
    assert s[|a|] == ':' && s'[|a'|] == ':';
    assert a == s[..|a|] && a' == s'[..|a'|];
    assert b == s[|a| + 1..] && b' == s'[|a'| + 1..];
  }

  lemma CancelEnd(a: string, a': string, end: string)
    requires a + end == a' + end
    ensures a == a'
  {
    assert a == (a + end)[..|a|] && a' == (a' + end)[..|a'|];
  }

  lemma CancelStart(start: string, a: string, a': string)
    requires start + a == start + a'
    ensures a == a'
  {
    assert a == (start + a)[|start|..] && a' == (start + a')[|start|..];
  }

  lemma TextStands(h: Hash, b: Base, t: string)
    requires HexDigests(h)
    ensures var s := h.text(b, t); s != "" && StripQuotes(Strip(s)) == s && Lower(s) == s && IsAscii(s) && ':' !in s
  {
    assert LowerHex(h.text(b, t));
    HexStands(h.text(b, t));
  }

  lemma BodyStands(h: Hash, b: Base, d: seq<byte>)
    requires HexDigests(h)
    ensures ':' !in h.body(b, d)
  {
    assert LowerHex(h.body(b, d));
    HexStands(h.body(b, d));
  }

  lemma A2WithBody(h: Hash, i: Inputs, m: string, body: seq<byte>)
    requires i.qop == AuthInt
    ensures A2(h, i, m, body) == (m + (":" + i.uri)) + ":" + h.body(i.algorithm.base, body)
  {
  }

  lemma A2WithoutBody(h: Hash, i: Inputs, m: string, body: seq<byte>)
    requires i.qop != AuthInt
    ensures A2(h, i, m, body) == m + (":" + i.uri)
  {
  }

  /** The second part of a response speaks for the method and, with auth-int, for the body, unless bodies collide. */
  lemma A2Iff(h: Hash, i: Inputs, m: string, body: seq<byte>, m': string, body': seq<byte>)
    requires HexDigests(h) && !(i.qop == AuthInt && BodiesCollide(h, i.algorithm.base, body, body'))
    ensures A2(h, i, m, body) == A2(h, i, m', body') <==> m == m' && (i.qop == AuthInt ==> body == body')
  {
    hide HexDigests;
    var b, end := i.algorithm.base, ":" + i.uri;
    if A2(h, i, m, body) == A2(h, i, m', body') {
      if i.qop == AuthInt {
        A2WithBody(h, i, m, body);
        A2WithBody(h, i, m', body');
        hide A2;
        BodyStands(h, b, body);
        BodyStands(h, b, body');
        LastColon(m + end, h.body(b, body), m' + end, h.body(b, body'));
      } else {
        A2WithoutBody(h, i, m, body);
        A2WithoutBody(h, i, m', body');
      }
      CancelEnd(m, m', end);
    }
  }

  /** What is between the hashed credentials and the hash of the request. */
  function Middle(i: Inputs): string {
    ":" + i.nonce + if i.qop == NoQop then "" else ":" + i.nonceCount + ":" + i.cnonce + ":" + QopName(i.qop)
  }

  function SessionText(i: Inputs, ha1: string): string {
    ha1 + (":" + i.nonce + ":" + i.cnonce)
  }

  function Session(h: Hash, i: Inputs, ha1: string): string {
    if i.algorithm.session then h.text(i.algorithm.base, SessionText(i, ha1)) else ha1
  }

  /** The text whose digest is the response. */
  function FinalText(h: Hash, i: Inputs, ha1: string, m: string, body: seq<byte>): string {
    (Session(h, i, ha1) + Middle(i)) + ":" + h.text(i.algorithm.base, A2(h, i, m, body))
  }

  /** The text of a response with a qop, and of one without, grouped around what is between the two hashes. */
  lemma GroupedWithQop(s: string, nonce: string, nc: string, cnonce: string, qop: string, ha2: string)
    ensures s + ":" + nonce + ":" + (nc + ":" + cnonce + ":" + qop + ":") + ha2
            == (s + (":" + nonce + (":" + nc + ":" + cnonce + ":" + qop))) + ":" + ha2
  {
  }

  lemma GroupedWithout(s: string, nonce: string, ha2: string)
    ensures s + ":" + nonce + ":" + "" + ha2 == (s + (":" + nonce + "")) + ":" + ha2
  {
  }

  lemma ResponseIs(h: Hash, i: Inputs, ha1: string, m: string, body: seq<byte>)
    ensures Response(h, i, ha1, m, body) == h.text(i.algorithm.base, FinalText(h, i, ha1, m, body))
  {
    hide A2, QopName;
    var s, ha2 := Session(h, i, ha1), h.text(i.algorithm.base, A2(h, i, m, body));
    assert ha1 + ":" + i.nonce + ":" + i.cnonce == SessionText(i, ha1);
    if i.qop == NoQop {
      GroupedWithout(s, i.nonce, ha2);
    } else {
      GroupedWithQop(s, i.nonce, i.nonceCount, i.cnonce, QopName(i.qop), ha2);
    }
  }

  lemma SessionIff(h: Hash, i: Inputs, ha1: string, ha1': string)
    requires !(i.algorithm.session && TextsCollide(h, i.algorithm.base, SessionText(i, ha1), SessionText(i, ha1')))
    ensures Session(h, i, ha1) == Session(h, i, ha1') <==> ha1 == ha1'
  {
    if SessionText(i, ha1) == SessionText(i, ha1') {
      CancelEnd(ha1, ha1', ":" + i.nonce + ":" + i.cnonce);
    }
  }

  /** Something hashed on the way to one response collides with what is hashed in its place for the other. */
  predicate Collide(h: Hash, i: Inputs, ha1: string, m: string, body: seq<byte>, ha1': string, m': string, body': seq<byte>) {
    var b := i.algorithm.base;
    || (i.qop == AuthInt && BodiesCollide(h, b, body, body'))
    || (i.algorithm.session && TextsCollide(h, b, SessionText(i, ha1), SessionText(i, ha1')))
    || TextsCollide(h, b, A2(h, i, m, body), A2(h, i, m', body'))
    || TextsCollide(h, b, FinalText(h, i, ha1, m, body), FinalText(h, i, ha1', m', body'))
  }

  /** Two responses are the same when credentials, method and (with auth-int) body are, whatever the hash. */
  lemma ResponseIsOf(h: Hash, i: Inputs, ha1: string, m: string, body: seq<byte>, body': seq<byte>)
    requires i.qop == AuthInt ==> body == body'
    ensures Response(h, i, ha1, m, body) == Response(h, i, ha1, m, body')
  {
  }

  /** They are the same only then, unless the hash collides on the very texts of these two responses. */
  lemma ResponseIff(h: Hash, i: Inputs, ha1: string, m: string, body: seq<byte>, ha1': string, m': string, body': seq<byte>)
    requires HexDigests(h) && !Collide(h, i, ha1, m, body, ha1', m', body')
    ensures Response(h, i, ha1, m, body) == Response(h, i, ha1', m', body')
            <==> ha1 == ha1' && m == m' && (i.qop == AuthInt ==> body == body')
  {
    hide HexDigests, Response, A2, Session, Middle, SessionText;
    var b := i.algorithm.base;
    A2Iff(h, i, m, body, m', body');
    SessionIff(h, i, ha1, ha1');
    ResponseIs(h, i, ha1, m, body);
    ResponseIs(h, i, ha1', m', body');
    var a2, a2' := A2(h, i, m, body), A2(h, i, m', body');
    var s, s' := Session(h, i, ha1), Session(h, i, ha1');
    if Response(h, i, ha1, m, body) == Response(h, i, ha1', m', body') {
      TextStands(h, b, a2);
      TextStands(h, b, a2');
      LastColon(s + Middle(i), h.text(b, a2), s' + Middle(i), h.text(b, a2'));
      CancelEnd(s, s', Middle(i));
    }
  }
}
