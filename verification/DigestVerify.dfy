/** Built credentials verify for the password, method and body they were made for, and for no others. */
module DigestVerify {
  import opened Bytes
  import opened DigestParams
  import opened DigestPrinting
  import opened Digest
  import opened DigestRoundTrip

  /** What a set of parameters gives for a response when the caller of the computation gives nothing itself. */
  ghost predicate Describes(params: Params, i: Inputs) {
    && Complete(params)
    && params["realm"] == i.realm && params["nonce"] == i.nonce != "" && params["uri"] == i.uri != "" && params["username"] == i.username != ""
    && params["algorithm"] == Name(i.algorithm)
    && Lookup(params, "qop") == (if i.qop == NoQop then None else Some(QopName(i.qop)))
    && Get(params, "cnonce") == i.cnonce && (i.qop != NoQop || i.algorithm.session ==> i.cnonce != "")
    && i.nonceCount == Or(Get(params, "nc"), "00000001")
  }

  /** What `verify_digest_response` gives the computation. */
  function GivenQop(q: Qop): Given {
    Given("", "", "", "", "", if q == NoQop then None else Some(QopName(q)))
  }

  lemma CollectsAgain(params: Params, i: Inputs, supported: set<Algorithm>)
    requires Describes(params, i)
    ensures Collect(params, GivenQop(i.qop), supported) == if i.algorithm in supported then Ok(i) else Err(UnsupportedAlgorithm)
  {
    NameIsKnown(i.algorithm);
    if i.qop != NoQop {
      QopNameIsKnown(i.qop);
    }
    hide Normalize, NormalizeQop, Name, QopName, IsToken;
  }

  /** The inputs that `Build` computes its response from. */
  function BuiltInputs(challenge: Params, username: string, uri: string, algorithm: Algorithm, qop: Qop, nonceCount: string, cnonce: string): Inputs {
    Inputs(algorithm, qop, username, Get(challenge, "realm"), Get(challenge, "nonce"), uri,
           if qop != NoQop || algorithm.session then cnonce else "", Or(if qop == NoQop then "" else nonceCount, "00000001"))
  }

  /** What `Build` puts in before the response. */
  ghost predicate Holds(params: Params, i: Inputs, nonceCount: string) {
    && "realm" in params && params["realm"] == i.realm && Lookup(params, "nonce") == Some(i.nonce)
    && Lookup(params, "algorithm") == Some(Name(i.algorithm))
    && Lookup(params, "qop") == (if i.qop == NoQop then None else Some(QopName(i.qop)))
    && Get(params, "cnonce") == i.cnonce && Get(params, "nc") == (if i.qop == NoQop then "" else nonceCount)
    && Get(params, "username") == i.username && Get(params, "uri") == i.uri
  }

  lemma ChosenHolds(challenge: Params, username: string, uri: string, algorithm: Algorithm, qop: Qop, nonceCount: string, cnonce: string)
    ensures Holds(Chosen(challenge, username, uri, algorithm, qop, nonceCount, cnonce),
                  BuiltInputs(challenge, username, uri, algorithm, qop, nonceCount, cnonce), nonceCount)
  {
    hide Name, QopName;
  }

  /** The computation collects what `Build` put in, or says what is missing. */
  lemma ChosenCollects(params: Params, i: Inputs, nonceCount: string, supported: set<Algorithm>)
    requires i.algorithm in supported && Holds(params, i, nonceCount)
    requires i.nonceCount == Or(if i.qop == NoQop then "" else nonceCount, "00000001")
    ensures Collect(params, Given(i.username, i.uri, params["nonce"], Get(params, "cnonce"), Get(params, "nc"), Lookup(params, "qop")), supported)
            == if i.nonce == "" then Err(MissingNonce) else if i.uri == "" then Err(MissingUri) else if i.username == "" then Err(MissingUsername)
               else if (i.qop != NoQop || i.algorithm.session) && i.cnonce == "" then Err(MissingCnonce)
               else Ok(i)
  {
    NameIsKnown(i.algorithm);
    if i.qop != NoQop {
      QopNameIsKnown(i.qop);
    }
    hide Normalize, NormalizeQop, Name, QopName, IsToken;
  }

  lemma ChosenDescribes(challenge: Params, username: string, uri: string, algorithm: Algorithm, qop: Qop, nonceCount: string, cnonce: string,
                        response: string, opaqueValue: Option<string>)
    requires username != "" && uri != "" && Get(challenge, "nonce") != ""
    requires qop != NoQop || algorithm.session ==> cnonce != ""
    ensures var params := With(Chosen(challenge, username, uri, algorithm, qop, nonceCount, cnonce)["response" := response], "opaque", opaqueValue);
            && Describes(params, BuiltInputs(challenge, username, uri, algorithm, qop, nonceCount, cnonce))
            && params["response"] == response && (qop != NoQop ==> Get(params, "nc") == nonceCount)
  {
    hide Name, QopName;
  }

  /** The request that credentials are made for, and the secret they are made with. */
  datatype Request = Request(username: string, password: string, verb: string, uri: string, nonceCount: string, body: seq<byte>)

  function BuildFor(h: Hash, challenge: Params, q: Request, supported: set<Algorithm>, cnonce: string): Result<Params> {
    Build(h, challenge, q.username, q.password, q.verb, q.uri, q.nonceCount, q.body, supported, cnonce)
  }

  lemma BuiltFrom(h: Hash, challenge: Params, q: Request, supported: set<Algorithm>, cnonce: string) returns (i: Inputs)
    requires BuildFor(h, challenge, q, supported, cnonce).Ok?
    ensures var params := BuildFor(h, challenge, q, supported, cnonce).value;
            && Describes(params, i) && i.algorithm in supported && i.algorithm.base in h.provided
            && i.username == q.username && i.realm == Get(challenge, "realm")
            && params["response"] == Response(h, i, CredentialHash(h, i.algorithm.base, q.username, i.realm, q.password), q.verb, q.body)
            && (i.qop != NoQop ==> Get(params, "nc") == q.nonceCount)
  {
    var algorithm, qop := Support(Lookup(challenge, "algorithm"), supported).value, SelectQop(Lookup(challenge, "qop")).value;
    i := BuiltInputs(challenge, q.username, q.uri, algorithm, qop, q.nonceCount, cnonce);
    ChosenHolds(challenge, q.username, q.uri, algorithm, qop, q.nonceCount, cnonce);
    ChosenCollects(Chosen(challenge, q.username, q.uri, algorithm, qop, q.nonceCount, cnonce), i, q.nonceCount, supported);
    var response := Response(h, i, CredentialHash(h, algorithm.base, q.username, i.realm, q.password), q.verb, q.body);
    hide Collect, Chosen, Holds, Response, SelectQop, Normalize, CredentialHash, Describes, With;
    ChosenDescribes(challenge, q.username, q.uri, algorithm, qop, q.nonceCount, cnonce, response, Lookup(challenge, "opaque"));
  }

  /** Whether a secret is the password that the credentials were made with. */
  ghost predicate Matches(h: Hash, i: Inputs, q: Request, secret: Secret) {
    !secret.Nothing? && Ha1(h, i, secret) == CredentialHash(h, i.algorithm.base, q.username, i.realm, q.password)
  }

  lemma VerifyIs(h: Hash, params: Params, i: Inputs, verb: string, secret: Secret, body: seq<byte>, supported: set<Algorithm>)
    requires HexDigests(h) && Describes(params, i) && LowerHex(params["response"])
    ensures Verify(h, params, verb, secret, body, supported)
            <==> (i.qop != NoQop ==> IsNonceCount(Get(params, "nc"))) && i.algorithm in supported && !secret.Nothing?
                 && i.algorithm.base in h.provided && Response(h, i, Ha1(h, i, secret), verb, body) == params["response"]
  {
    CollectsAgain(params, i, supported);
    HexStands(params["response"]);
    if i.qop != NoQop {
      QopNameIsKnown(i.qop);
    }
    if !secret.Nothing? {
      ResponseIsHex(h, i, Ha1(h, i, secret), verb, body);
    }
    hide Collect, Ha1, Response, NormalizeQop, Name, QopName, IsToken, LowerHex, HexDigests, IsNonceCount, IsAscii, Strip, StripQuotes, Lower;
  }

  lemma ResponseIsHex(h: Hash, i: Inputs, ha1: string, verb: string, body: seq<byte>)
    requires HexDigests(h)
    ensures var r := Response(h, i, ha1, verb, body); LowerHex(r) && Lower(r) == r
  {
    ResponseIs(h, i, ha1, verb, body);
    var r := Response(h, i, ha1, verb, body);
    hide Response;
    assert LowerHex(r);
    HexStands(r);
  }

  function CredentialText(i: Inputs, username: string, password: string): string {
    username + ":" + i.realm + ":" + password
  }

  /** A password matches exactly when it is the one that the credentials were made with, or collides with it. */
  lemma PasswordMatchesIff(h: Hash, i: Inputs, q: Request, password: string)
    requires i.username == q.username
    ensures Matches(h, i, q, Password(password))
            <==> password == q.password
                 || TextsCollide(h, i.algorithm.base, CredentialText(i, q.username, password), CredentialText(i, q.username, q.password))
  {
    if CredentialText(i, q.username, password) == CredentialText(i, q.username, q.password) {
      CancelStart(q.username + ":" + i.realm + ":", password, q.password);
    }
  }

  /** What the verifier is asked is what the credentials were made for, with the secret they were made with. */
  ghost predicate AskedAbout(h: Hash, i: Inputs, q: Request, secret: Secret, verb: string, body: seq<byte>, supported: set<Algorithm>) {
    && (i.qop != NoQop ==> IsNonceCount(q.nonceCount)) && i.algorithm in supported && Matches(h, i, q, secret)
    && verb == q.verb && (i.qop == AuthInt ==> body == q.body)
  }

  /** The hash collides on something that the verifier hashes, against what was hashed when the credentials were made. */
  ghost predicate Confused(h: Hash, i: Inputs, q: Request, secret: Secret, verb: string, body: seq<byte>) {
    !secret.Nothing?
    && Collide(h, i, Ha1(h, i, secret), verb, body, CredentialHash(h, i.algorithm.base, q.username, i.realm, q.password), q.verb, q.body)
  }

  /**
   The verifier accepts built credentials when it supports their algorithm, has the secret they were made with,
   and is asked about the same method and (with auth-int) the same body; with a qop the nonce count must also be
   eight hex digits.  It accepts them only then, unless the hash collides on the texts of this very comparison.
   */
  lemma VerifiesIff(h: Hash, challenge: Params, q: Request, supported: set<Algorithm>, cnonce: string,
                    secret: Secret, verb: string, body: seq<byte>, supported': set<Algorithm>) returns (i: Inputs)
    requires HexDigests(h) && BuildFor(h, challenge, q, supported, cnonce).Ok?
    ensures Describes(BuildFor(h, challenge, q, supported, cnonce).value, i) && i.username == q.username
    ensures var verified := Verify(h, BuildFor(h, challenge, q, supported, cnonce).value, verb, secret, body, supported');
            && (AskedAbout(h, i, q, secret, verb, body, supported') ==> verified)
            && (verified && !Confused(h, i, q, secret, verb, body) ==> AskedAbout(h, i, q, secret, verb, body, supported'))
  {
    hide *;
    var params := BuildFor(h, challenge, q, supported, cnonce).value;
    i := BuiltFrom(h, challenge, q, supported, cnonce);
    var made := CredentialHash(h, i.algorithm.base, q.username, i.realm, q.password);
    ResponseIsHex(h, i, made, q.verb, q.body);
    VerifyIs(h, params, i, verb, secret, body, supported');
    MatchesIs(h, i, q, secret);
    AskedIs(h, i, q, secret, verb, body, supported');
    if !secret.Nothing? {
      var ha1 := Ha1(h, i, secret);
      if ha1 == made && verb == q.verb && (i.qop == AuthInt ==> body == q.body) {
        ResponseIsOf(h, i, ha1, verb, body, q.body);
      }
      if !Confused(h, i, q, secret, verb, body) {
        NotConfused(h, i, q, secret, verb, body);
        ResponseIff(h, i, ha1, verb, body, made, q.verb, q.body);
      }
    }
  }

  lemma AskedIs(h: Hash, i: Inputs, q: Request, secret: Secret, verb: string, body: seq<byte>, supported: set<Algorithm>)
    ensures AskedAbout(h, i, q, secret, verb, body, supported)
            <==> (i.qop != NoQop ==> IsNonceCount(q.nonceCount)) && i.algorithm in supported && Matches(h, i, q, secret)
                 && verb == q.verb && (i.qop == AuthInt ==> body == q.body)
  {
  }

  lemma NotConfused(h: Hash, i: Inputs, q: Request, secret: Secret, verb: string, body: seq<byte>)
    requires !secret.Nothing? && !Confused(h, i, q, secret, verb, body)
    ensures !Collide(h, i, Ha1(h, i, secret), verb, body, CredentialHash(h, i.algorithm.base, q.username, i.realm, q.password), q.verb, q.body)
  {
  }

  lemma MatchesIs(h: Hash, i: Inputs, q: Request, secret: Secret)
    ensures Matches(h, i, q, secret)
            <==> !secret.Nothing? && Ha1(h, i, secret) == CredentialHash(h, i.algorithm.base, q.username, i.realm, q.password)
  {
  }

  lemma NonceCountIsToken(s: string)
    requires IsNonceCount(s)
    ensures IsToken(s)
  {
  }

  lemma DescribedIsPrintable(params: Params, i: Inputs)
    requires Describes(params, i) && (i.qop != NoQop ==> IsNonceCount(Get(params, "nc")))
    ensures Complete(params) && IsToken(Get(params, "algorithm")) && IsToken(Get(params, "qop")) && IsToken(Get(params, "nc"))
  {
    NameIsKnown(i.algorithm);
    if i.qop != NoQop {
      QopNameIsKnown(i.qop);
      NonceCountIsToken(Get(params, "nc"));
    }
    hide IsNonceCount, Normalize, NormalizeQop, Name, QopName, Plain;
  }

  /**
   Through the printed header: the parsed credentials are the built ones, and they verify for the same password,
   method and body, for every algorithm and qop and whatever the hash.
   */
  lemma HeaderVerifies(h: Hash, challenge: Params, q: Request, supported: set<Algorithm>, cnonce: string, supported': set<Algorithm>, name: string)
    returns (i: Inputs)
    requires HexDigests(h) && BuildFor(h, challenge, q, supported, cnonce).Ok?
    ensures var params := BuildFor(h, challenge, q, supported, cnonce).value;
            Describes(params, i)
            && ((i.qop != NoQop ==> IsNonceCount(q.nonceCount)) && i.algorithm in supported' ==>
                  var header := Header(name, params);
                  && |header| >= |name| + 4 && header[..|name| + 2] == name + ": " && header[|header| - 2..] == "\r\n"
                  && var parsed := ParseParams(header[|name| + 2..|header| - 2]);
                  parsed == params && Verify(h, parsed, q.verb, Password(q.password), q.body, supported'))
  {
    hide *;
    var params := BuildFor(h, challenge, q, supported, cnonce).value;
    i := VerifiesIff(h, challenge, q, supported, cnonce, Password(q.password), q.verb, q.body, supported');
    PasswordMatchesIff(h, i, q, q.password);
    AskedIs(h, i, q, Password(q.password), q.verb, q.body, supported');
    var j := BuiltFrom(h, challenge, q, supported, cnonce);
    if (i.qop != NoQop ==> IsNonceCount(q.nonceCount)) && i.algorithm in supported' {
      SameQop(params, i, j);
      DescribedIsPrintable(params, i);
      HeaderRoundTrip(params);
      HeaderValue(name, params);
    }
  }

  lemma HeaderValue(name: string, params: Params)
    ensures var header := Header(name, params);
            && |header| >= |name| + 4 && header[..|name| + 2] == name + ": " && header[|header| - 2..] == "\r\n"
            && header[|name| + 2..|header| - 2] == "Digest " + PrintFields(HeaderFields(params))
  {
    hide PrintFields, HeaderFields;
    var fields := PrintFields(HeaderFields(params));
    assert name + ": Digest " + fields + "\r\n" == (name + ": ") + ("Digest " + fields) + "\r\n";
  }

  lemma SameQop(params: Params, i: Inputs, j: Inputs)
    requires Describes(params, i) && Describes(params, j)
    ensures i.qop == NoQop <==> j.qop == NoQop
  {
  }
}
