/** What the login handler promises, stated over all inputs. */
module JwtLoginProperties {
  import opened Wrappers
  import opened PyStr
  import opened JwtLogin

  // ---- Username resolution ----

  /** Reference definition: the username is the claim value cut at its first `@`. */
  lemma ResolveIsBeforeFirstAt(claims: Claims, field: string)
    requires field in claims
    ensures RetrieveUsername(claims, field) == Success(claims[field][..FirstIndexOf(claims[field], '@')])
  {
  }

  /** An e-mail style value keeps only its local part. */
  lemma ResolveEmailLocalPart(claims: Claims, field: string, local: string, domain: string)
    requires field in claims && claims[field] == local + "@" + domain && '@' !in local
    ensures RetrieveUsername(claims, field) == Success(local)
  {
    var value := claims[field];
    FirstIndexOfAfterFree(local, '@', "@" + domain);
    assert value == local + ("@" + domain);
    ResolveIsBeforeFirstAt(claims, field);
    assert value[..|local|] == local;
  }

  /** Worked cases: only the first `@` matters, and a leading `@` leaves the empty name. */
  lemma ResolveExampleManyAts()
    ensures RetrieveUsername(map["upn" := "a@b@c"], "upn") == Success("a")
  {
    ResolveEmailLocalPart(map["upn" := "a@b@c"], "upn", "a", "b@c");
  }

  lemma ResolveExampleLeadingAt()
    ensures RetrieveUsername(map["upn" := "@x"], "upn") == Success("")
  {
  }

  lemma ResolveExamplePlain()
    ensures RetrieveUsername(map["upn" := "plainuser"], "upn") == Success("plainuser")
  {
  }

  /** Resolving an already-resolved username, under any other claims, returns it unchanged. */
  lemma ResolveIdempotent(claims: Claims, other: Claims, field: string)
    requires RetrieveUsername(claims, field).Success?
    ensures var u := RetrieveUsername(claims, field).value;
      RetrieveUsername(other[field := u], field) == Success(u)
  {
  }

  // ---- Token extraction ----

  /** The shape `<lead><scheme><sep><token><tail>` of a header with at least two words. */
  predicate SchemeTokenHeader(header: string, lead: string, scheme: string, sep: string, token: string, tail: string) {
    header == lead + scheme + sep + token + tail
    && AllSpace(lead) && IsWord(scheme) && |sep| > 0 && AllSpace(sep)
    && IsWord(token) && StartsAtBoundary(tail)
  }

  /** The token handed on is the second word, whatever the first word (the scheme) is. */
  lemma {:induction false} TokenIsSecondWord(header: string, lead: string, scheme: string, sep: string, token: string, tail: string)
    requires SchemeTokenHeader(header, lead, scheme, sep, token, tail)
    ensures ExtractToken(header) == Success(token)
  {
    assert header == lead + (scheme + (sep + (token + tail)));
    WordsSkipSpace(lead, scheme + (sep + (token + tail)));
    WordsCons(scheme, sep + (token + tail));
    WordsSkipSpace(sep, token + tail);
    WordsCons(token, tail);
  }

  /** Replacing the first word by any other word never changes the token. */
  lemma {:induction false} SchemeNeverInspected(scheme1: string, scheme2: string, rest: string)
    requires IsWord(scheme1) && IsWord(scheme2) && StartsAtBoundary(rest)
    ensures ExtractToken(scheme1 + rest) == ExtractToken(scheme2 + rest)
  {
    WordsCons(scheme1, rest);
    WordsCons(scheme2, rest);
  }

  /** A header holding at most one word (whitespace-only included) fails with the IndexError. */
  lemma {:induction false} AtMostOneWordFails(header: string, lead: string, word: string, trail: string)
    requires header == lead + word + trail && AllSpace(lead) && AllSpace(trail)
    requires word == "" || IsWord(word)
    ensures ExtractToken(header) == Failure(MalformedHeader)
  {
    assert header == lead + (word + trail);
    WordsSkipSpace(lead, word + trail);
    WordsSkipSpace(trail, "");
    assert trail + "" == trail;
    if word == "" {
      assert word + trail == trail;
    } else {
      WordsCons(word, trail);
    }
  }

  // ---- Decode options ----

  /** Under the default configuration every verifier call has audience verification off. */
  lemma DefaultConfigSkipsAudience(header: string)
    ensures var call := PrepareVerifierCall(header, DefaultConfig.signingCertificate, DefaultConfig.expectedAudience);
      call.Success? ==> !AudienceVerified(call.value.options) && call.value.audience == ""
  {
  }

  // ---- Decision flow of `get` ----

  /** An empty or absent header gives 401 whatever the verifier would say: it is never consulted. */
  lemma EmptyHeaderNeverVerifies(headers: map<string, string>, config: Config, hubBaseUrl: string,
                                 decode1: VerifierCall -> Result<Claims, VerifyError>,
                                 decode2: VerifierCall -> Result<Claims, VerifyError>)
    requires HeaderContent(headers, config.headerName) == ""
    ensures Get(headers, config, hubBaseUrl, decode1) == Unauthorized401
    ensures Get(headers, config, hubBaseUrl, decode1) == Get(headers, config, hubBaseUrl, decode2)
  {
  }

  /** A non-empty header with fewer than two words fails before the verifier is consulted. */
  lemma MalformedHeaderNeverVerifies(headers: map<string, string>, config: Config, hubBaseUrl: string,
                                     decode: VerifierCall -> Result<Claims, VerifyError>)
    requires HeaderContent(headers, config.headerName) != ""
    requires |Words(HeaderContent(headers, config.headerName))| < 2
    ensures Get(headers, config, hubBaseUrl, decode) == Failed(MalformedHeader)
  {
  }

  /** The outcome depends on the verifier only through its answer to that one call. */
  lemma {:induction false} OnlyTheTokenCallMatters(headers: map<string, string>, config: Config, hubBaseUrl: string,
                                                   lead: string, scheme: string, sep: string, token: string, tail: string,
                                                   decode1: VerifierCall -> Result<Claims, VerifyError>,
                                                   decode2: VerifierCall -> Result<Claims, VerifyError>)
    requires SchemeTokenHeader(HeaderContent(headers, config.headerName), lead, scheme, sep, token, tail)
    requires decode1(CallFor(token, config.signingCertificate, config.expectedAudience)) == decode2(CallFor(token, config.signingCertificate, config.expectedAudience))
    ensures Get(headers, config, hubBaseUrl, decode1) == Get(headers, config, hubBaseUrl, decode2)
  {
    TokenIsSecondWord(HeaderContent(headers, config.headerName), lead, scheme, sep, token, tail);
  }

  /** A verifier failure on the token is what `get` reports. */
  lemma {:induction false} VerificationFailureEscapes(headers: map<string, string>, config: Config, hubBaseUrl: string,
                                                      lead: string, scheme: string, sep: string, token: string, tail: string,
                                                      decode: VerifierCall -> Result<Claims, VerifyError>)
    requires SchemeTokenHeader(HeaderContent(headers, config.headerName), lead, scheme, sep, token, tail)
    requires decode(CallFor(token, config.signingCertificate, config.expectedAudience)).Failure?
    ensures Get(headers, config, hubBaseUrl, decode) == Failed(VerificationFailed(decode(CallFor(token, config.signingCertificate, config.expectedAudience)).error))
  {
    TokenIsSecondWord(HeaderContent(headers, config.headerName), lead, scheme, sep, token, tail);
  }

  /** Verified claims without the configured field fail with the KeyError. */
  lemma {:induction false} MissingClaimEscapes(headers: map<string, string>, config: Config, hubBaseUrl: string,
                                               lead: string, scheme: string, sep: string, token: string, tail: string,
                                               decode: VerifierCall -> Result<Claims, VerifyError>)
    requires SchemeTokenHeader(HeaderContent(headers, config.headerName), lead, scheme, sep, token, tail)
    requires decode(CallFor(token, config.signingCertificate, config.expectedAudience)).Success?
    requires config.usernameClaimField !in decode(CallFor(token, config.signingCertificate, config.expectedAudience)).value
    ensures Get(headers, config, hubBaseUrl, decode) == Failed(ClaimMissing(config.usernameClaimField))
  {
    TokenIsSecondWord(HeaderContent(headers, config.headerName), lead, scheme, sep, token, tail);
  }

  /** End to end: a token whose verified claims hold `local@domain` in the configured field logs
      in `local` and redirects to the hub's `home`. */
  lemma {:induction false} EmailClaimLogsInLocalPart(headers: map<string, string>, config: Config, hubBaseUrl: string,
                                                     lead: string, scheme: string, sep: string, token: string, tail: string,
                                                     decode: VerifierCall -> Result<Claims, VerifyError>,
                                                     local: string, domain: string)
    requires SchemeTokenHeader(HeaderContent(headers, config.headerName), lead, scheme, sep, token, tail)
    requires decode(CallFor(token, config.signingCertificate, config.expectedAudience)).Success?
    requires var claims := decode(CallFor(token, config.signingCertificate, config.expectedAudience)).value;
      config.usernameClaimField in claims && claims[config.usernameClaimField] == local + "@" + domain
    requires '@' !in local
    ensures Get(headers, config, hubBaseUrl, decode) == Authenticated(local, UrlPathJoin(hubBaseUrl, "home"))
  {
    TokenIsSecondWord(HeaderContent(headers, config.headerName), lead, scheme, sep, token, tail);
    ResolveEmailLocalPart(decode(CallFor(token, config.signingCertificate, config.expectedAudience)).value, config.usernameClaimField, local, domain);
  }

  /** End to end: verified claims whose configured field resolves log in the resolved name, so a
      value without `@` (the plain `upn` case) logs in unchanged. */
  lemma {:induction false} ResolvedClaimLogsIn(headers: map<string, string>, config: Config, hubBaseUrl: string,
                                               lead: string, scheme: string, sep: string, token: string, tail: string,
                                               decode: VerifierCall -> Result<Claims, VerifyError>)
    requires SchemeTokenHeader(HeaderContent(headers, config.headerName), lead, scheme, sep, token, tail)
    requires decode(CallFor(token, config.signingCertificate, config.expectedAudience)).Success?
    requires config.usernameClaimField in decode(CallFor(token, config.signingCertificate, config.expectedAudience)).value
    ensures var value := decode(CallFor(token, config.signingCertificate, config.expectedAudience)).value[config.usernameClaimField];
      Get(headers, config, hubBaseUrl, decode)
        == Authenticated(value[..FirstIndexOf(value, '@')], UrlPathJoin(hubBaseUrl, "home"))
    ensures var value := decode(CallFor(token, config.signingCertificate, config.expectedAudience)).value[config.usernameClaimField];
      '@' !in value ==> Get(headers, config, hubBaseUrl, decode) == Authenticated(value, UrlPathJoin(hubBaseUrl, "home"))
  {
    TokenIsSecondWord(HeaderContent(headers, config.headerName), lead, scheme, sep, token, tail);
    ResolveIsBeforeFirstAt(decode(CallFor(token, config.signingCertificate, config.expectedAudience)).value, config.usernameClaimField);
  }
}
