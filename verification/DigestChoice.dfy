/**
 Which credentials a challenge gets: the qop and the algorithm that its text offers, the response of section 3.4.1 of
 RFC 7616 written out, and what is echoed; or why there are none.
 */
module DigestChoice {
  import opened Bytes
  import opened DigestParams
  import opened Digest
  import opened DigestOffers
  import opened DigestVerify
  import DigestRoundTrip

  // ------------------------------------------------------------------ the qop

  /** The word is an item of the challenge's qop list. */
  ghost predicate OffersQop(challenge: Params, word: string) {
    "qop" in challenge && exists i: nat, j: nat :: Inner(challenge["qop"], i, j) && Lists(challenge["qop"][i..j], word)
  }

  /** The challenge has no qop list, or nothing in it. */
  ghost predicate OffersNoQop(challenge: Params) {
    "qop" in challenge ==> exists i: nat, j: nat :: Inner(challenge["qop"], i, j) && Empty(challenge["qop"][i..j])
  }

  /** The word for the qop that credentials use, "" for none: auth when it is offered, auth-int when only that is. */
  ghost predicate Chooses(challenge: Params, word: string) {
    || (word == "auth" && OffersQop(challenge, "auth"))
    || (word == "auth-int" && OffersQop(challenge, "auth-int") && !OffersQop(challenge, "auth"))
    || (word == "" && OffersNoQop(challenge))
  }

  lemma WordsAreWords()
    ensures IsWord("auth") && IsWord("auth-int")
  {
  }

  lemma OffersIff(challenge: Params, word: string)
    requires IsWord(word)
    ensures OffersQop(challenge, word)
            <==> "qop" in challenge && word in Tokens(StripQuotes(Strip(challenge["qop"])))
  {
    hide Lists, Within, Tokens, Strip, StripQuotes, IsWord;
    if "qop" in challenge {
      var s := challenge["qop"];
      var i, j := SomeInner(s);
      InnerIs(s, i, j);
      TokensList(s[i..j], word);
      if x: nat, y: nat :| Inner(s, x, y) && Lists(s[x..y], word) {
        InnerIs(s, x, y);
      }
    }
  }

  lemma OffersNoneIff(challenge: Params)
    ensures OffersNoQop(challenge) <==> ("qop" in challenge ==> Tokens(StripQuotes(Strip(challenge["qop"]))) == [])
  {
    hide Empty, Within, Tokens, Strip, StripQuotes;
    if "qop" in challenge {
      var s := challenge["qop"];
      var i, j := SomeInner(s);
      InnerIs(s, i, j);
      NoTokensIff(s[i..j]);
      if x: nat, y: nat :| Inner(s, x, y) && Empty(s[x..y]) {
        InnerIs(s, x, y);
      }
    }
  }

  lemma SelectedQop(challenge: Params)
    ensures SelectQop(Lookup(challenge, "qop"))
            == if OffersQop(challenge, "auth") then Ok(Auth)
               else if OffersQop(challenge, "auth-int") then Ok(AuthInt)
               else if OffersNoQop(challenge) then Ok(NoQop)
               else Err(UnsupportedQop)
  {
    hide OffersQop, OffersNoQop, Tokens, Strip, StripQuotes, IsWord;
    WordsAreWords();
    OffersIff(challenge, "auth");
    OffersIff(challenge, "auth-int");
    OffersNoneIff(challenge);
  }

  // ------------------------------------------------------------------ the algorithm

  /** What an algorithm may be called, in upper case. */
  function Aliases(a: Algorithm): set<string> {
    match a
    case Algorithm(MD5, false) => {"MD5"}
    case Algorithm(MD5, true) => {"MD5-SESS"}
    case Algorithm(SHA256, false) => {"SHA-256", "SHA256"}
    case Algorithm(SHA256, true) => {"SHA-256-SESS", "SHA256-SESS"}
    case Algorithm(SHA512_256, false) => {"SHA-512-256", "SHA512-256", "SHA-512/256", "SHA512/256", "SHA512_256"}
    case Algorithm(SHA512_256, true) => {"SHA-512-256-SESS", "SHA512-256-SESS", "SHA-512/256-SESS", "SHA512/256-SESS", "SHA512_256-SESS"}
  }

  /** `s` is the name, in any case. */
  predicate Reads(s: string, upper: string) {
    |s| == |upper| && forall k :: 0 <= k < |s| ==> SameLetter(upper[k], s[k])
  }

  /** The challenge calls for the algorithm by one of its names, or for MD5 by naming none. */
  ghost predicate CallsFor(challenge: Params, a: Algorithm) {
    if "algorithm" !in challenge then a == Algorithm(MD5, false)
    else
      exists i: nat, j: nat :: Inner(challenge["algorithm"], i, j)
                               && if i == j then a == Algorithm(MD5, false)
                                  else exists name :: name in Aliases(a) && Reads(challenge["algorithm"][i..j], name)
  }

  predicate IsUpper(s: string) {
    forall k :: 0 <= k < |s| ==> !('a' <= s[k] <= 'z')
  }

  lemma AliasIff(upper: string, a: Algorithm)
    ensures Alias(upper) == Some(a) <==> upper in Aliases(a)
  {
  }

  lemma AliasesAreUpper(a: Algorithm)
    ensures forall name :: name in Aliases(a) ==> IsUpper(name)
  {
  }

  lemma {:induction false} UpperIff(s: string, upper: string)
    requires IsUpper(upper)
    ensures Upper(s) == upper <==> Reads(s, upper)
  {
    if |s| == |upper| && s != "" {
      UpperIff(s[1..], upper[1..]);
      assert Upper(s) == [UpperChar(s[0])] + Upper(s[1..]) && upper == [upper[0]] + upper[1..];
      assert forall k :: 1 <= k < |s| ==> s[k] == s[1..][k - 1] && upper[k] == upper[1..][k - 1];
      assert UpperChar(s[0]) == upper[0] <==> SameLetter(upper[0], s[0]);
      if Reads(s[1..], upper[1..]) && SameLetter(upper[0], s[0]) {
        forall k | 0 <= k < |s|
          ensures SameLetter(upper[k], s[k])
        {
          if k > 0 {
            assert SameLetter(upper[1..][k - 1], s[1..][k - 1]);
          }
        }
      }
      if Reads(s, upper) {
        forall k | 0 <= k < |s| - 1
          ensures SameLetter(upper[1..][k], s[1..][k])
        {
          assert SameLetter(upper[k + 1], s[k + 1]);
        }
      }
    }
  }

  lemma NameIff(s: string, a: Algorithm)
    ensures Alias(Upper(s)) == Some(a) <==> exists name :: name in Aliases(a) && Reads(s, name)
  {
    hide Alias, Upper, Aliases, Reads, IsUpper;
    AliasIff(Upper(s), a);
    AliasesAreUpper(a);
    if name :| name in Aliases(a) && Reads(s, name) {
      UpperIff(s, name);
    }
    if Upper(s) in Aliases(a) {
      UpperIff(s, Upper(s));
    }
  }

  lemma DefaultIsMd5(a: Algorithm)
    ensures Alias(Upper("MD5")) == Some(a) <==> a == Algorithm(MD5, false)
    ensures StripQuotes(Strip("MD5")) == "MD5" && StripQuotes(Strip("")) == ""
  {
    UpperIff("MD5", "MD5");
    DigestRoundTrip.NamesAreSpelled(Algorithm(MD5, false));
    DigestRoundTrip.SpelledStands("MD5", "MD5");
  }

  lemma CalledAlgorithm(challenge: Params, a: Algorithm)
    ensures Normalize(Lookup(challenge, "algorithm")) == Some(a) <==> CallsFor(challenge, a)
  {
    hide Alias, Upper, Aliases, Reads, Strip, StripQuotes, Within;
    DefaultIsMd5(a);
    if "algorithm" in challenge {
      var s := challenge["algorithm"];
      var i, j := SomeInner(s);
      InnerIs(s, i, j);
      NameIff(s[i..j], a);
      if x: nat, y: nat :| Inner(s, x, y) && if x == y then a == Algorithm(MD5, false)
                                             else exists name :: name in Aliases(a) && Reads(s[x..y], name) {
        InnerIs(s, x, y);
      }
    }
  }

  // ------------------------------------------------------------------ the credentials

  function BaseName(b: Base): string {
    match b case MD5 => "MD5" case SHA256 => "SHA-256" case SHA512_256 => "SHA-512-256"
  }

  /** The response as RFC 7616 gives it, for the qop word, "" for none. */
  function ResponseFor(h: Hash, a: Algorithm, word: string, q: Request, realm: string, nonce: string, count: string, cnonce: string): string {
    var user := h.text(a.base, q.username + ":" + realm + ":" + q.password);
    var session := if a.session then h.text(a.base, user + ":" + nonce + ":" + cnonce) else user;
    var asked := h.text(a.base, q.verb + ":" + q.uri + if word == "auth-int" then ":" + h.body(a.base, q.body) else "");
    h.text(a.base, session + ":" + nonce + ":" + (if word == "" then "" else count + ":" + cnonce + ":" + word + ":") + asked)
  }

  function QopOf(word: string): Qop {
    if word == "auth" then Auth else if word == "auth-int" then AuthInt else NoQop
  }

  lemma ChosenIs(challenge: Params, word: string)
    requires Chooses(challenge, word)
    ensures SelectQop(Lookup(challenge, "qop")) == Ok(QopOf(word)) && word in {"", "auth", "auth-int"}
    ensures QopOf(word) == NoQop <==> word == ""
  {
    SelectedQop(challenge);
    OffersIff(challenge, "auth");
    OffersIff(challenge, "auth-int");
    OffersNoneIff(challenge);
    WordsAreWords();
    hide OffersQop, OffersNoQop, Tokens, Strip, StripQuotes, IsWord, SelectQop;
  }

  /**
   Credentials for a challenge that names a realm, calls for a supported algorithm and leaves a choice of qop: the
   qop, nonce count and client nonce are there exactly when one is chosen, the client nonce also for a session
   algorithm; the algorithm is the one called for, the realm, nonce and opaque are the challenge's own, and the response is
   that of RFC 7616.  They fail only for what is missing or not provided.
   */
  lemma BuildOutcome(h: Hash, challenge: Params, q: Request, supported: set<Algorithm>, cnonce: string, a: Algorithm, word: string)
    requires "realm" in challenge && CallsFor(challenge, a) && a in supported && Chooses(challenge, word)
    ensures BuildFor(h, challenge, q, supported, cnonce)
            == if Get(challenge, "nonce") == "" then Err(MissingNonce)
               else if q.uri == "" then Err(MissingUri)
               else if q.username == "" then Err(MissingUsername)
               else if (word != "" || a.session) && cnonce == "" then Err(MissingCnonce)
               else if a.base !in h.provided then Err(NotProvided)
               else
                 var realm, nonce := challenge["realm"], challenge["nonce"];
                 var count := if q.nonceCount == "" then "00000001" else q.nonceCount;
                 Ok(map["username" := q.username, "realm" := realm, "nonce" := nonce, "uri" := q.uri,
                        "algorithm" := BaseName(a.base) + if a.session then "-sess" else "",
                        "response" := ResponseFor(h, a, word, q, realm, nonce, count, cnonce)]
                    + (if word != "" then map["qop" := word, "nc" := q.nonceCount] else map[])
                    + (if word != "" || a.session then map["cnonce" := cnonce] else map[])
                    + (if "opaque" in challenge then map["opaque" := challenge["opaque"]] else map[]))
  {
    hide *;
    CalledAlgorithm(challenge, a);
    ChosenIs(challenge, word);
    BuildIs(h, challenge, q, supported, cnonce, a, QopOf(word));
    NonceIn(challenge);
    if Get(challenge, "nonce") != "" && (word != "" || a.session ==> cnonce != "") {
      AnswersAs(h, challenge, q, cnonce, a, word);
      ChosenMap(challenge, q, cnonce, a, word, ResponseOf(h, challenge, q, cnonce, a, QopOf(word)));
    }
  }

  lemma NonceIn(challenge: Params)
    ensures Get(challenge, "nonce") != "" ==> "nonce" in challenge
  {
  }

  /** The response that is computed. */
  function ResponseOf(h: Hash, challenge: Params, q: Request, cnonce: string, a: Algorithm, qop: Qop): string {
    Response(h, BuiltInputs(challenge, q.username, q.uri, a, qop, q.nonceCount, cnonce),
             CredentialHash(h, a.base, q.username, Get(challenge, "realm"), q.password), q.verb, q.body)
  }

  lemma BuildIs(h: Hash, challenge: Params, q: Request, supported: set<Algorithm>, cnonce: string, a: Algorithm, qop: Qop)
    requires "realm" in challenge && a in supported
    requires Normalize(Lookup(challenge, "algorithm")) == Some(a) && SelectQop(Lookup(challenge, "qop")) == Ok(qop)
    ensures BuildFor(h, challenge, q, supported, cnonce)
            == if Get(challenge, "nonce") == "" then Err(MissingNonce)
               else if q.uri == "" then Err(MissingUri)
               else if q.username == "" then Err(MissingUsername)
               else if (qop != NoQop || a.session) && cnonce == "" then Err(MissingCnonce)
               else if a.base !in h.provided then Err(NotProvided)
               else
                 Ok(With(Chosen(challenge, q.username, q.uri, a, qop, q.nonceCount, cnonce)["response" := ResponseOf(h, challenge, q, cnonce, a, qop)],
                         "opaque", Lookup(challenge, "opaque")))
  {
    var i := BuiltInputs(challenge, q.username, q.uri, a, qop, q.nonceCount, cnonce);
    var params := Chosen(challenge, q.username, q.uri, a, qop, q.nonceCount, cnonce);
    ChosenHolds(challenge, q.username, q.uri, a, qop, q.nonceCount, cnonce);
    ChosenCollects(params, i, q.nonceCount, supported);
    hide Collect, Holds, Chosen, Normalize, SelectQop, With, Response, CredentialHash, Lookup;
  }

  lemma AnswersAs(h: Hash, challenge: Params, q: Request, cnonce: string, a: Algorithm, word: string)
    requires "realm" in challenge && "nonce" in challenge && word in {"", "auth", "auth-int"}
    requires word != "" || a.session ==> cnonce != ""
    ensures ResponseOf(h, challenge, q, cnonce, a, QopOf(word))
            == ResponseFor(h, a, word, q, challenge["realm"], challenge["nonce"], if q.nonceCount == "" then "00000001" else q.nonceCount, cnonce)
  {
    hide Name;
  }

  lemma ChosenMap(challenge: Params, q: Request, cnonce: string, a: Algorithm, word: string, response: string)
    requires "realm" in challenge && "nonce" in challenge && word in {"", "auth", "auth-int"}
    requires word != "" || a.session ==> cnonce != ""
    ensures With(Chosen(challenge, q.username, q.uri, a, QopOf(word), q.nonceCount, cnonce)["response" := response], "opaque", Lookup(challenge, "opaque"))
            == map["username" := q.username, "realm" := challenge["realm"], "nonce" := challenge["nonce"], "uri" := q.uri,
                   "algorithm" := BaseName(a.base) + if a.session then "-sess" else "", "response" := response]
               + (if word != "" then map["qop" := word, "nc" := q.nonceCount] else map[])
               + (if word != "" || a.session then map["cnonce" := cnonce] else map[])
               + (if "opaque" in challenge then map["opaque" := challenge["opaque"]] else map[])
  {
    assert Name(a) == BaseName(a.base) + if a.session then "-sess" else "";
    assert QopName(QopOf(word)) == word;
    hide Name, BaseName, QopName;
    var base := map["username" := q.username, "realm" := challenge["realm"], "nonce" := challenge["nonce"], "uri" := q.uri, "algorithm" := Name(a)];
    var more := if word != "" || a.session then base["cnonce" := cnonce] else base;
    var all := if word == "" then more else more["qop" := word]["nc" := q.nonceCount];
    assert Chosen(challenge, q.username, q.uri, a, QopOf(word), q.nonceCount, cnonce) == all;
    hide Chosen, With;
    Added(base, word, q.nonceCount, cnonce, a.session, response, Lookup(challenge, "opaque"));
  }

  lemma Added(base: Params, word: string, count: string, cnonce: string, session: bool, response: string, opaqueValue: Option<string>)
    requires base.Keys !! {"qop", "nc", "cnonce", "response", "opaque"}
    ensures var more := if word != "" || session then base["cnonce" := cnonce] else base;
            var all := if word == "" then more else more["qop" := word]["nc" := count];
            With(all["response" := response], "opaque", opaqueValue)
            == base["response" := response]
               + (if word != "" then map["qop" := word, "nc" := count] else map[])
               + (if word != "" || session then map["cnonce" := cnonce] else map[])
               + (if opaqueValue.Some? then map["opaque" := opaqueValue.value] else map[])
  {
  }

  /** Or there are none: no realm, no supported algorithm called for, or a list of qop words that holds neither. */
  lemma BuildRefused(h: Hash, challenge: Params, q: Request, supported: set<Algorithm>, cnonce: string)
    ensures "realm" !in challenge ==> BuildFor(h, challenge, q, supported, cnonce) == Err(MissingRealm)
    ensures "realm" in challenge && (forall a :: a in supported ==> !CallsFor(challenge, a)) ==>
              BuildFor(h, challenge, q, supported, cnonce) == Err(UnsupportedAlgorithm)
    ensures "realm" in challenge && (exists a :: a in supported && CallsFor(challenge, a))
            && !OffersQop(challenge, "auth") && !OffersQop(challenge, "auth-int") && !OffersNoQop(challenge) ==>
              BuildFor(h, challenge, q, supported, cnonce) == Err(UnsupportedQop)
  {
    hide CallsFor, OffersQop, OffersNoQop, Normalize, SelectQop, Chosen, Compute;
    var normal := Normalize(Lookup(challenge, "algorithm"));
    SelectedQop(challenge);
    forall a | a in supported
      ensures normal == Some(a) <==> CallsFor(challenge, a)
    {
      CalledAlgorithm(challenge, a);
    }
  }

  // ------------------------------------------------------------------ what a verifier reads

  /** `s` is the text, which has no capitals, in any case. */
  predicate ReadsAs(s: string, text: string) {
    |s| == |text| && forall k :: 0 <= k < |s| ==> SameLetter(s[k], text[k])
  }

  predicate NoCapitals(s: string) {
    forall k :: 0 <= k < |s| ==> !('A' <= s[k] <= 'Z')
  }

  lemma LowerIff(s: string, text: string)
    requires NoCapitals(text)
    ensures Lower(s) == text <==> ReadsAs(s, text)
  {
    hide Lower, LowerChar;
    forall k | 0 <= k < |s| && |s| == |text|
      ensures Lower(s)[k] == text[k] <==> SameLetter(s[k], text[k])
    {
      LowerAt(s, k);
      LowerSame(s[k], text[k]);
    }
  }

  /** The one qop that credentials name, in any case, spacing and quotes. */
  lemma NamedQop(value: string, i: nat, j: nat)
    requires value != "" && Inner(value, i, j)
    ensures NormalizeQop(Some(value))
            == if ReadsAs(value[i..j], "auth") then Ok(Auth)
               else if ReadsAs(value[i..j], "auth-int") then Ok(AuthInt)
               else Err(UnsupportedQop)
  {
    InnerIs(value, i, j);
    hide Within, Strip, StripQuotes, Lower, ReadsAs;
    LowerIff(value[i..j], "auth");
    LowerIff(value[i..j], "auth-int");
  }

  /** A nonce count is eight hexadecimal digits. */
  lemma NonceCountIff(s: string)
    ensures IsNonceCount(s) <==> |s| == 8 && forall c :: c in s ==> c in "0123456789abcdefABCDEF"
  {
    forall c
      ensures IsHex(c) <==> c in "0123456789abcdefABCDEF"
    {
      HexIff(c);
    }
    hide IsHex;
    assert |s| == 8 && IsNonceCount(s) ==> forall c :: c in s ==> IsHex(c);
    assert forall i :: 0 <= i < |s| ==> s[i] in s;
  }

  lemma HexIff(c: char)
    ensures IsHex(c) <==> c in "0123456789abcdefABCDEF"
  {
    var digits := "0123456789abcdefABCDEF";
    if '0' <= c <= '9' {
      assert digits[c as int - '0' as int] == c;
    } else if 'a' <= c <= 'f' {
      assert digits[10 + (c as int - 'a' as int)] == c;
    } else if 'A' <= c <= 'F' {
      assert digits[16 + (c as int - 'A' as int)] == c;
    }
  }

  lemma HexHasNoCapitals(s: string)
    requires DigestRoundTrip.LowerHex(s)
    ensures NoCapitals(s) && s != "" && Lower(s) == s
  {
    DigestRoundTrip.HexStands(s);
  }

  /** A stored hash stands for the password whose hash it is, in any case and with white space around it. */
  lemma StoredMatchesIff(h: Hash, i: Inputs, q: Request, hash: string, a: nat, b: nat)
    requires DigestRoundTrip.HexDigests(h) && Bare(hash, a, b)
    ensures Matches(h, i, q, Stored(hash)) <==> ReadsAs(hash[a..b], h.text(i.algorithm.base, q.username + ":" + i.realm + ":" + q.password))
  {
    var digest := h.text(i.algorithm.base, q.username + ":" + i.realm + ":" + q.password);
    assert DigestRoundTrip.LowerHex(digest);
    HexHasNoCapitals(digest);
    StripIs(hash, a, b);
    hide Strip, Lower, ReadsAs;
    LowerIff(hash[a..b], digest);
  }

  /**
   Credentials verify exactly when a nonce count that a qop calls for is there, the algorithm is supported and
   provided, there is a secret, and the response reads as the one that the secret gives, in any case, spacing and quotes.
   */
  lemma VerifiesAnyCase(h: Hash, params: Params, i: Inputs, verb: string, secret: Secret, body: seq<byte>, supported: set<Algorithm>, x: nat, y: nat)
    requires DigestRoundTrip.HexDigests(h) && Describes(params, i) && Inner(params["response"], x, y)
    ensures Verify(h, params, verb, secret, body, supported)
            <==> (i.qop != NoQop ==> IsNonceCount(Get(params, "nc"))) && i.algorithm in supported && !secret.Nothing?
                 && i.algorithm.base in h.provided && ReadsAs(params["response"][x..y], Response(h, i, Ha1(h, i, secret), verb, body))
  {
    CollectsAgain(params, i, supported);
    InnerIs(params["response"], x, y);
    if i.qop != NoQop {
      DigestRoundTrip.QopNameIsKnown(i.qop);
    }
    if !secret.Nothing? {
      ComparedAs(h, i, secret, verb, body, params["response"][x..y]);
    }
    hide Collect, Ha1, Response, NormalizeQop, Name, QopName, DigestRoundTrip.IsToken, DigestRoundTrip.HexDigests, IsNonceCount, IsAscii, Strip, StripQuotes, Lower, ReadsAs, Within;
  }

  lemma ComparedAs(h: Hash, i: Inputs, secret: Secret, verb: string, body: seq<byte>, actual: string)
    requires DigestRoundTrip.HexDigests(h) && !secret.Nothing?
    ensures var expected := Response(h, i, Ha1(h, i, secret), verb, body);
            ReadsAs(actual, expected) <==> actual != "" && IsAscii(actual) && Lower(expected) == Lower(actual)
  {
    var expected := Response(h, i, Ha1(h, i, secret), verb, body);
    ResponseIsHex(h, i, Ha1(h, i, secret), verb, body);
    HexHasNoCapitals(expected);
    assert DigestRoundTrip.LowerHex(expected);
    hide Response, Ha1, Lower, DigestRoundTrip.HexDigests;
    LowerIff(actual, expected);
    if ReadsAs(actual, expected) {
      forall k | 0 <= k < |actual|
        ensures actual[k] < 128 as char
      {
        assert SameLetter(actual[k], expected[k]);
      }
    }
  }
}
