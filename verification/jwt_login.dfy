/**
 * The JupyterHub login handler that accepts a JSON Web Token from a request header:
 * token extraction and decode options (`verify_jwt_with_claims`), username
 * resolution (`retrieve_username`) and the decision flow of `get`.
 *
 * Signature checking (`jwt.decode`, with the certificate file read before it) is a
 * foreign library call. It appears here as a parameter `decode`, a total function from
 * the call the handler makes to the claims or the error that call produces.
 */
module JwtLogin {
  import opened Wrappers
  import opened PyStr

  /** The decoded payload of a token: claim name to claim value. */
  type Claims = map<string, string>

  /** The handler's configuration (the authenticator's configurable traits). */
  datatype Config = Config(
    signingCertificate: string,
    usernameClaimField: string,
    expectedAudience: string,
    headerName: string)

  /** The trait defaults: no certificate path, claim `upn`, no audience, header `Authorization`. */
  const DefaultConfig := Config("", "upn", "", "Authorization")

  /** Everything the handler passes to the foreign verifier: the token, the certificate
      path whose contents are the key, the audience and the options map. */
  datatype VerifierCall = VerifierCall(
    token: string,
    certificatePath: string,
    audience: string,
    options: map<string, bool>)

  /** What the foreign verifier (file read plus `jwt.decode`) can raise. */
  datatype VerifyError = CertificateUnreadable(path: string) | InvalidToken(reason: string)

  /** The exceptions `get` lets escape; the web framework answers each with an error page. */
  datatype LoginFailure =
    | MalformedHeader                      // `split()[1]` raised IndexError
    | VerificationFailed(error: VerifyError)
    | ClaimMissing(field: string)          // `claims[field]` raised KeyError

  /** `url_path_join(base, tail)`, kept as an unevaluated join. */
  datatype RedirectTarget = UrlPathJoin(base: string, tail: string)

  /** Outcome of one `get`: a 401, an escaped exception, or a login for `username`
      (handed to `user_from_username` and `set_login_cookie`) redirecting to `target`. */
  datatype Outcome =
    | Unauthorized401
    | Failed(reason: LoginFailure)
    | Authenticated(username: string, target: RedirectTarget)

  /** python-jose verifies the audience unless the options turn `verify_aud` off. */
  predicate AudienceVerified(options: map<string, bool>) {
    "verify_aud" !in options || options["verify_aud"]
  }

  /** The options passed to `jwt.decode`: audience verification is off exactly for the empty audience. */
  function DecodeOptions(audience: string): (options: map<string, bool>)
    ensures AudienceVerified(options) <==> audience != ""
    ensures options.Keys <= {"verify_aud"}
    ensures audience != "" ==> options == map[]
  {
    if audience == "" then map["verify_aud" := false] else map[]
  }

  /** `auth_header_content.split()[1]`: the second whitespace-separated word. */
  function ExtractToken(header: string): (r: Result<string, LoginFailure>)
    ensures r.Failure? <==> |Words(header)| < 2
    ensures r.Failure? ==> r.error == MalformedHeader
    ensures r.Success? ==> IsWord(r.value)
  {
    var ws := Words(header);
    if |ws| < 2 then Failure(MalformedHeader) else Success(ws[1])
  }

  /** The call `verify_jwt_with_claims` makes for `token`: the configured certificate path and
      audience, and the options derived from the audience. */
  function CallFor(token: string, certificate: string, audience: string): VerifierCall {
    VerifierCall(token, certificate, audience, DecodeOptions(audience))
  }

  /** The call `verify_jwt_with_claims` makes to the verifier, or the IndexError raised before it. */
  function PrepareVerifierCall(header: string, certificate: string, audience: string): (r: Result<VerifierCall, LoginFailure>)
    ensures r.Failure? <==> |Words(header)| < 2
    ensures r.Failure? ==> r.error == MalformedHeader
    ensures r.Success? ==> r.value == CallFor(Words(header)[1], certificate, audience)
    ensures r.Success? ==>
      IsWord(r.value.token) && r.value.options.Keys <= {"verify_aud"}
      && (AudienceVerified(r.value.options) <==> audience != "")
  {
    match ExtractToken(header)
    case Failure(e) => Failure(e)
    case Success(token) => Success(CallFor(token, certificate, audience))
  }

  /** `verify_jwt_with_claims`: the claims come from the verifier and from nowhere else. */
  function VerifyJwtWithClaims(header: string, certificate: string, audience: string,
                               decode: VerifierCall -> Result<Claims, VerifyError>): (r: Result<Claims, LoginFailure>)
    ensures |Words(header)| < 2 ==> r == Failure(MalformedHeader)
    ensures r.Success? ==>
      var call := PrepareVerifierCall(header, certificate, audience);
      call.Success? && decode(call.value) == Success(r.value)
    ensures r.Failure? && |Words(header)| >= 2 ==>
      var call := PrepareVerifierCall(header, certificate, audience);
      call.Success? && decode(call.value).Failure?
      && r.error == VerificationFailed(decode(call.value).error)
  {
    match PrepareVerifierCall(header, certificate, audience)
    case Failure(e) => Failure(e)
    case Success(call) =>
      match decode(call)
      case Failure(e) => Failure(VerificationFailed(e))
      case Success(claims) => Success(claims)
  }

  /** `retrieve_username`: the claim value up to (not including) its first `@`. */
  function RetrieveUsername(claims: Claims, field: string): (r: Result<string, LoginFailure>)
    ensures r.Failure? <==> field !in claims
    ensures r.Failure? ==> r.error == ClaimMissing(field)
    ensures r.Success? ==>
      var value := claims[field];
      |r.value| <= |value| && r.value == value[..|r.value|] && '@' !in r.value
      && ('@' in value ==> value[|r.value|] == '@')
      && ('@' !in value ==> r.value == value)
  {
    if field !in claims then Failure(ClaimMissing(field))
    else
      var username := claims[field];
      if '@' in username then
        SplitHead(username, '@');
        Success(Split(username, '@')[0])
      else Success(username)
  }

  /** `self.request.headers.get(name, "")`. */
  function HeaderContent(headers: map<string, string>, name: string): (v: string)
    ensures name !in headers ==> v == ""
    ensures name in headers ==> v == headers[name]
  {
    if name in headers then headers[name] else ""
  }

  /** `get`: 401 on an empty header, otherwise verify, resolve the username and log it in. */
  function Get(headers: map<string, string>, config: Config, hubBaseUrl: string,
               decode: VerifierCall -> Result<Claims, VerifyError>): (o: Outcome)
    ensures o == Unauthorized401 <==> HeaderContent(headers, config.headerName) == ""
    ensures o.Authenticated? ==>
      var header := HeaderContent(headers, config.headerName);
      var claims := VerifyJwtWithClaims(header, config.signingCertificate, config.expectedAudience, decode);
      claims.Success? && RetrieveUsername(claims.value, config.usernameClaimField) == Success(o.username)
      && o.target == UrlPathJoin(hubBaseUrl, "home")
    ensures
      var header := HeaderContent(headers, config.headerName);
      var claims := VerifyJwtWithClaims(header, config.signingCertificate, config.expectedAudience, decode);
      header != "" ==>
        (claims.Failure? ==> o == Failed(claims.error))
        && (claims.Success? ==>
              var username := RetrieveUsername(claims.value, config.usernameClaimField);
              (username.Failure? ==> o == Failed(ClaimMissing(config.usernameClaimField)))
              && (username.Success? ==> o == Authenticated(username.value, UrlPathJoin(hubBaseUrl, "home"))))
  {
    var header := HeaderContent(headers, config.headerName);
    if header == "" then Unauthorized401
    else
      match VerifyJwtWithClaims(header, config.signingCertificate, config.expectedAudience, decode)
      case Failure(e) => Failed(e)
      case Success(claims) =>
        match RetrieveUsername(claims, config.usernameClaimField)
        case Failure(e) => Failed(e)
        case Success(username) => Authenticated(username, UrlPathJoin(hubBaseUrl, "home"))
  }
}
