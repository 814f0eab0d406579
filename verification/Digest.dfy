/** Digest credentials: computed for a challenge, printed, and verified (section 3.4 of RFC 7616).  The hash is not interpreted. */
module Digest {
  import opened Bytes
  import opened DigestParams
  import opened DigestPrinting

  datatype Base = MD5 | SHA256 | SHA512_256

  datatype Algorithm = Algorithm(base: Base, session: bool)

  datatype Qop = NoQop | Auth | AuthInt

  datatype AuthError = UnsupportedAlgorithm | NotProvided | UnsupportedQop | MissingRealm | MissingNonce | MissingUri
                     | MissingUsername | MissingCnonce | MissingPassword

  datatype Result<+T> = Ok(value: T) | Err(error: AuthError)

  /** hexdigest() of text and of a body, for the algorithms that the platform provides. */
  datatype Hash = Hash(text: (Base, string) -> string, body: (Base, seq<byte>) -> string, provided: set<Base>)

  // ------------------------------------------------------------------ names

  function UpperChar(c: char): char {
    if 'a' <= c <= 'z' then c - 'a' + 'A' else c
  }

  function Upper(s: string): (r: string)
    ensures |r| == |s|
  {
    if s == "" then "" else [UpperChar(s[0])] + Upper(s[1..])
  }

  /** str.strip('"') */
  function StripQuotes(s: string): string
    decreases |s|
  {
    if s != "" && s[0] == '"' then StripQuotes(s[1..])
    else if s != "" && s[|s| - 1] == '"' then StripQuotes(s[..|s| - 1])
    else s
  }

  function Name(a: Algorithm): string {
    match a
    case Algorithm(MD5, false) => "MD5"
    case Algorithm(MD5, true) => "MD5-sess"
    case Algorithm(SHA256, false) => "SHA-256"
    case Algorithm(SHA256, true) => "SHA-256-sess"
    case Algorithm(SHA512_256, false) => "SHA-512-256"
    case Algorithm(SHA512_256, true) => "SHA-512-256-sess"
  }

  /** The names an algorithm goes by, in upper case. */
  function Alias(upper: string): Option<Algorithm> {
    if upper == "MD5" then Some(Algorithm(MD5, false))
    else if upper == "MD5-SESS" then Some(Algorithm(MD5, true))
    else if upper in {"SHA-256", "SHA256"} then Some(Algorithm(SHA256, false))
    else if upper in {"SHA-256-SESS", "SHA256-SESS"} then Some(Algorithm(SHA256, true))
    else if upper in {"SHA-512-256", "SHA512-256", "SHA-512/256", "SHA512/256", "SHA512_256"} then Some(Algorithm(SHA512_256, false))
    else if upper in {"SHA-512-256-SESS", "SHA512-256-SESS", "SHA-512/256-SESS", "SHA512/256-SESS", "SHA512_256-SESS"}
    then Some(Algorithm(SHA512_256, true))
    else None
  }

  /** `normalize_digest_algorithm`; None stands for every name that is not known. */
  function Normalize(algorithm: Option<string>): Option<Algorithm> {
    var given := if algorithm.None? || algorithm.value == "" then "MD5" else algorithm.value;
    var raw := StripQuotes(Strip(given));
    Alias(Upper(if raw == "" then "MD5" else raw))
  }

  function QopName(q: Qop): string {
    match q case NoQop => "" case Auth => "auth" case AuthInt => "auth-int"
  }

  /** The tokens of a comma-separated list, blank ones left out. */
  function Tokens(s: string): (tokens: seq<string>)
    decreases |s|
  {
    var token, rest := Lower(Strip(TakeWhile(s, InValue))), DropWhile(s, InValue);
    (if token == "" then [] else [token]) + if rest == "" then [] else Tokens(rest[1..])
  }

  /** `_select_qop`: the one to use of those a challenge offers. */
  function SelectQop(qop: Option<string>): Result<Qop> {
    if qop.None? then Ok(NoQop)
    else
      var tokens := Tokens(StripQuotes(Strip(qop.value)));
      if tokens == [] then Ok(NoQop)
      else if "auth" in tokens then Ok(Auth)
      else if "auth-int" in tokens then Ok(AuthInt)
      else Err(UnsupportedQop)
  }

  /** `_normalize_authorization_qop`: the one that credentials name. */
  function NormalizeQop(qop: Option<string>): Result<Qop> {
    if qop.None? || qop.value == "" then Ok(NoQop)
    else
      var name := Lower(StripQuotes(Strip(qop.value)));
      if name == "auth" then Ok(Auth) else if name == "auth-int" then Ok(AuthInt) else Err(UnsupportedQop)
  }

  // ------------------------------------------------------------------ computing

  function Lookup(params: Params, key: string): Option<string> {
    if key in params then Some(params[key]) else None
  }

  /** params.get(key) or "" */
  function Get(params: Params, key: string): string {
    if key in params then params[key] else ""
  }

  function Or(first: string, second: string): string {
    if first != "" then first else second
  }

  /** Values that the caller of `compute_digest_response` gives itself; "" where it gives none. */
  datatype Given = Given(username: string, uri: string, nonce: string, cnonce: string, nonceCount: string, qop: Option<string>)

  /** What goes into a response. */
  datatype Inputs = Inputs(algorithm: Algorithm, qop: Qop, username: string, realm: string, nonce: string, uri: string,
                           cnonce: string, nonceCount: string)

  function Support(algorithm: Option<string>, supported: set<Algorithm>): Result<Algorithm> {
    var a := Normalize(algorithm);
    if a.None? || a.value !in supported then Err(UnsupportedAlgorithm) else Ok(a.value)
  }

  function Collect(params: Params, given: Given, supported: set<Algorithm>): Result<Inputs> {
    var algorithm := Support(Lookup(params, "algorithm"), supported);
    var nonce, uri := Or(given.nonce, Get(params, "nonce")), Or(given.uri, Get(params, "uri"));
    var username := Or(given.username, Get(params, "username"));
    var qop := if given.qop.None? then SelectQop(Lookup(params, "qop")) else NormalizeQop(given.qop);
    var cnonce := Or(given.cnonce, Get(params, "cnonce"));
    var nonceCount := Or(Or(given.nonceCount, Get(params, "nc")), "00000001");
    if algorithm.Err? then Err(algorithm.error)
    else if "realm" !in params then Err(MissingRealm)
    else if nonce == "" then Err(MissingNonce)
    else if uri == "" then Err(MissingUri)
    else if username == "" then Err(MissingUsername)
    else if qop.Err? then Err(qop.error)
    else if (qop.value != NoQop || algorithm.value.session) && cnonce == "" then Err(MissingCnonce)
    else Ok(Inputs(algorithm.value, qop.value, username, params["realm"], nonce, uri, cnonce, nonceCount))
  }

  /** `make_digest_credential_hash`: what a server may store instead of a password. */
  function CredentialHash(h: Hash, base: Base, username: string, realm: string, password: string): string {
    h.text(base, username + ":" + realm + ":" + password)
  }

  function A2(h: Hash, i: Inputs, verb: string, body: seq<byte>): string {
    verb + ":" + i.uri + if i.qop == AuthInt then ":" + h.body(i.algorithm.base, body) else ""
  }

  /** The response, from the hash of the credentials. */
  function Response(h: Hash, i: Inputs, ha1: string, verb: string, body: seq<byte>): string {
    var base := i.algorithm.base;
    var session := if i.algorithm.session then h.text(base, ha1 + ":" + i.nonce + ":" + i.cnonce) else ha1;
    var ha2 := h.text(base, A2(h, i, verb, body));
    h.text(base, session + ":" + i.nonce + ":"
                 + (if i.qop == NoQop then "" else i.nonceCount + ":" + i.cnonce + ":" + QopName(i.qop) + ":") + ha2)
  }

  /** A password, or the stored hash of one, or neither. */
  datatype Secret = Password(password: string) | Stored(hash: string) | Nothing

  function Ha1(h: Hash, i: Inputs, secret: Secret): string
    requires !secret.Nothing?
  {
    match secret
    case Stored(hash) => Lower(Strip(hash))
    case Password(p) => CredentialHash(h, i.algorithm.base, i.username, i.realm, p)
  }

  /** `compute_digest_response` */
  function Compute(h: Hash, params: Params, given: Given, secret: Secret, verb: string, body: seq<byte>, supported: set<Algorithm>): Result<string> {
    match Collect(params, given, supported)
    case Err(e) => Err(e)
    case Ok(i) =>
      if secret.Nothing? then Err(MissingPassword)
      else if i.algorithm.base !in h.provided then Err(NotProvided)
      else Ok(Response(h, i, Ha1(h, i, secret), verb, body))
  }

  // ------------------------------------------------------------------ building and verifying

  function With(params: Params, key: string, value: Option<string>): Params {
    if value.Some? then params[key := value.value] else params
  }

  /** The parameters before the response is computed. */
  function Chosen(challenge: Params, username: string, uri: string, algorithm: Algorithm, qop: Qop, nonceCount: string, cnonce: string): Params {
    var params := map["username" := username, "realm" := Get(challenge, "realm"), "nonce" := Get(challenge, "nonce"),
                      "uri" := uri, "algorithm" := Name(algorithm)];
    var withCnonce := With(params, "cnonce", if (qop != NoQop || algorithm.session) && cnonce != "" then Some(cnonce) else None);
    if qop == NoQop then withCnonce else withCnonce["qop" := QopName(qop)]["nc" := nonceCount]
  }

  /** `build_authorization_parameters`; `cnonce` is the client's random nonce. */
  function Build(h: Hash, challenge: Params, username: string, password: string, verb: string, uri: string,
                 nonceCount: string, body: seq<byte>, supported: set<Algorithm>, cnonce: string): Result<Params> {
    var algorithm, qop := Support(Lookup(challenge, "algorithm"), supported), SelectQop(Lookup(challenge, "qop"));
    if "realm" !in challenge then Err(MissingRealm)
    else if algorithm.Err? then Err(algorithm.error)
    else if qop.Err? then Err(qop.error)
    else
      var params := Chosen(challenge, username, uri, algorithm.value, qop.value, nonceCount, cnonce);
      var given := Given(username, uri, params["nonce"], Get(params, "cnonce"), Get(params, "nc"), Lookup(params, "qop"));
      match Compute(h, params, given, Password(password), verb, body, supported)
      case Err(e) => Err(e)
      case Ok(response) => Ok(With(params["response" := response], "opaque", Lookup(challenge, "opaque")))
  }

  function Optional(params: Params, key: string, quoted: bool): seq<Field> {
    if key !in params then [] else if quoted then [Quoted(key, params[key])] else [Token(key, params[key])]
  }

  /** The fields of the header, in order. */
  function HeaderFields(params: Params): seq<Field> {
    [Quoted("username", Get(params, "username")), Quoted("realm", Get(params, "realm")), Quoted("nonce", Get(params, "nonce")),
     Quoted("uri", Get(params, "uri")), Quoted("response", Get(params, "response")), Token("algorithm", Get(params, "algorithm"))]
    + (if "qop" in params
       then [Token("qop", params["qop"]), Token("nc", Get(params, "nc")), Quoted("cnonce", Get(params, "cnonce"))]
       else Optional(params, "cnonce", true))
    + Optional(params, "opaque", true)
  }

  /** `build_digest_auth_header`, once the parameters are built. */
  function Header(name: string, params: Params): string {
    name + ": Digest " + PrintFields(HeaderFields(params)) + "\r\n"
  }

  predicate IsHex(c: char) {
    '0' <= c <= '9' || 'a' <= c <= 'f' || 'A' <= c <= 'F'
  }

  /** re.fullmatch(r"[0-9a-fA-F]{8}", ...) */
  predicate IsNonceCount(s: string) {
    |s| == 8 && forall i :: 0 <= i < 8 ==> IsHex(s[i])
  }

  predicate IsAscii(s: string) {
    forall i :: 0 <= i < |s| ==> s[i] < 128 as char
  }

  /** `verify_digest_response` */
  predicate Verify(h: Hash, authorization: Params, verb: string, secret: Secret, body: seq<byte>, supported: set<Algorithm>) {
    var actual := StripQuotes(Strip(Get(authorization, "response")));
    var qop := NormalizeQop(Lookup(authorization, "qop"));
    && actual != "" && IsAscii(actual)
    && qop.Ok? && (qop.value != NoQop ==> IsNonceCount(Get(authorization, "nc")))
    && var expected := Compute(h, authorization, Given("", "", "", "", "", if qop.value == NoQop then None else Some(QopName(qop.value))),
                               secret, verb, body, supported);
       expected.Ok? && Lower(expected.value) == Lower(actual)
  }
}
