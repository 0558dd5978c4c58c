# JWT login handler for JupyterHub, modelled in Dafny

This project models the login handler of `jwtauthenticator`, a JupyterHub authenticator
that logs a user in from a JSON Web Token carried in a request header. The handler does
four things on `GET /login`:

1. It reads the configured header (default `Authorization`). An empty or absent header is
   answered with HTTP 401 and nothing else happens.
2. It takes the second whitespace-separated word of the header as the token. The first
   word (normally the scheme, such as `Bearer`) is never looked at. A header with fewer
   than two words raises an IndexError.
3. It asks the token library to decode and verify the token against the configured
   certificate. Audience verification is switched off when the expected audience is the
   empty string, which is the default.
4. It reads the username from the configured claim (default `upn`), cuts it at the first
   `@`, hands it to JupyterHub's user lookup and login cookie, and redirects to the hub's
   base URL joined with `home`.

The model is pure: functions and lemmas, no state.

- `wrappers.dfy`: a `Result` type for a call that returns or raises.
- `pystr.dfy`: Python's `str.split()`, `str.split(sep)` for one character, and `sep.join`,
  with the laws that tie them together (round trips in both directions, leading
  whitespace ignored, a word followed by whitespace comes first).
- `jwt_login.dfy`: configuration and its defaults, token extraction, decode options, the
  call made to the verifier, username resolution and the decision flow of `get`.
- `jwt_login_properties.dfy`: the handler's promises over all inputs.

The signature check is a foreign library call. It is modelled as a parameter
`decode: VerifierCall -> Result<Claims, VerifyError>`: any total function from the exact
call the handler makes (token, certificate path, audience, options) to claims or an error.
Lemmas that quantify over two such functions state which calls the handler depends on.
"The verifier is never invoked" is stated as "the outcome is the same for every verifier".

This revision reads only the configured header. It has no cookie or query-parameter
source, no `bearer` scheme check, no shared-secret mode, no external login redirect and
no `next` parameter, and the model adds none of them. Only an empty or absent header
raises the 401. Every other failure is an exception that escapes `get`: the IndexError
from the split, the error from reading the certificate or decoding the token, and the
KeyError for a missing claim. The model reports these as `Failed(reason)`.

## Model

| member | source | states |
|---|---|---|
| PyStr.Words | jwtauthenticator/jwtauthenticator.py:31 | `str.split()`: every item it returns is a non-empty word with no whitespace |
| PyStr.WordsSkipSpace | jwtauthenticator/jwtauthenticator.py:31 | leading whitespace does not change the words of a string |
| PyStr.WordsCons | jwtauthenticator/jwtauthenticator.py:31 | a word followed by the end or by whitespace is the first word, and the rest is split the same way |
| PyStr.WordsJoinRoundTrip | jwtauthenticator/jwtauthenticator.py:31 | splitting words joined by single spaces gives back exactly those words |
| PyStr.FirstIndexOf | jwtauthenticator/jwtauthenticator.py:44-46 | the index returned holds the first occurrence of the character, or is the length when the character is absent |
| PyStr.Split | jwtauthenticator/jwtauthenticator.py:46 | `str.split(c)`: returns at least one piece, and no piece contains `c` |
| PyStr.SplitJoin | jwtauthenticator/jwtauthenticator.py:46 | joining the pieces of `s.split(c)` with `c` gives back `s` |
| PyStr.JoinSplit | jwtauthenticator/jwtauthenticator.py:46 | splitting `c`-free pieces joined with `c` gives back the pieces |
| PyStr.SplitHead | jwtauthenticator/jwtauthenticator.py:46 | the first piece of `s.split(c)` is everything before the first `c` |
| JwtLogin.DecodeOptions | jwtauthenticator/jwtauthenticator.py:32-36 | audience verification is on exactly when the expected audience is not empty; `verify_aud` is the only option ever set, and a non-empty audience passes no options |
| JwtLogin.ExtractToken | jwtauthenticator/jwtauthenticator.py:31 | fails with the IndexError exactly when the header has fewer than two words; a token returned is a whitespace-free word |
| JwtLogin.PrepareVerifierCall | jwtauthenticator/jwtauthenticator.py:30-37 | the verifier gets the second word of the header as token, the configured certificate path and audience unchanged, and the options of `DecodeOptions` (only `verify_aud`, off exactly for the empty audience); fewer than two words fail first |
| JwtLogin.VerifyJwtWithClaims | jwtauthenticator/jwtauthenticator.py:30-38 | claims returned are exactly the verifier's answer to the prepared call; a verifier error is passed on as is; a short header fails without claims |
| JwtLogin.RetrieveUsername | jwtauthenticator/jwtauthenticator.py:40-50 | fails exactly when the claim is absent; otherwise the username is a prefix of the claim value without `@`, followed by `@` in the value when the value has one, and equal to the value when it has none |
| JwtLogin.Get | jwtauthenticator/jwtauthenticator.py:11-27 | 401 exactly for an empty or absent header; otherwise the verifier's error, or the KeyError for a missing claim, or a login of the username resolved from the verified claims with a redirect to the hub base URL joined with `home`, and a login happens only that way |
| JwtLoginProperties.ResolveIsBeforeFirstAt | jwtauthenticator/jwtauthenticator.py:43-50 | when the claim is present, the username is the claim value cut before its first `@` (the whole value when there is none) |
| JwtLoginProperties.ResolveEmailLocalPart | jwtauthenticator/jwtauthenticator.py:44-46 | a value `local@domain` with no `@` in `local` resolves to `local`, whatever `domain` holds |
| JwtLoginProperties.ResolveExampleManyAts | jwtauthenticator/jwtauthenticator.py:44-46 | `a@b@c` resolves to `a` |
| JwtLoginProperties.ResolveExampleLeadingAt | jwtauthenticator/jwtauthenticator.py:44-46 | `@x` resolves to the empty string |
| JwtLoginProperties.ResolveExamplePlain | jwtauthenticator/jwtauthenticator.py:48-50 | `plainuser` resolves to itself |
| JwtLoginProperties.ResolveIdempotent | jwtauthenticator/jwtauthenticator.py:43-50 | resolving a resolved username again, under any claims, returns the same username |
| JwtLoginProperties.TokenIsSecondWord | jwtauthenticator/jwtauthenticator.py:31 | for a header of optional whitespace, a scheme word, whitespace, a token word and anything starting with whitespace, the token extracted is that token word |
| JwtLoginProperties.SchemeNeverInspected | jwtauthenticator/jwtauthenticator.py:31 | replacing the first word by any other word never changes the extracted token or failure |
| JwtLoginProperties.AtMostOneWordFails | jwtauthenticator/jwtauthenticator.py:31 | a header of whitespace with at most one word in it fails with the IndexError |
| JwtLoginProperties.DefaultConfigSkipsAudience | jwtauthenticator/jwtauthenticator.py:77-79 | with the default empty audience, every verifier call has audience verification switched off |
| JwtLoginProperties.EmptyHeaderNeverVerifies | jwtauthenticator/jwtauthenticator.py:18-19 | an empty or absent header gives 401 and the same outcome under every verifier |
| JwtLoginProperties.MalformedHeaderNeverVerifies | jwtauthenticator/jwtauthenticator.py:31 | a non-empty header with fewer than two words fails with the IndexError under every verifier |
| JwtLoginProperties.OnlyTheTokenCallMatters | jwtauthenticator/jwtauthenticator.py:22-38 | two verifiers that agree on the call for the second word (with the configured certificate, audience and options) give the same outcome |
| JwtLoginProperties.VerificationFailureEscapes | jwtauthenticator/jwtauthenticator.py:22 | an error from the verifier on the token is the outcome, and no username is resolved |
| JwtLoginProperties.MissingClaimEscapes | jwtauthenticator/jwtauthenticator.py:23 | verified claims without the configured field give the KeyError outcome |
| JwtLoginProperties.ResolvedClaimLogsIn | jwtauthenticator/jwtauthenticator.py:11-27 | a token whose verified claims hold the configured field logs in that value cut before its first `@`, and a value without `@` logs in unchanged, redirecting to the hub base URL joined with `home` |
| JwtLoginProperties.EmailClaimLogsInLocalPart | jwtauthenticator/jwtauthenticator.py:11-27 | a token whose verified claim is `local@domain` logs in `local` and redirects to the hub base URL joined with `home` |

## Left out

- `jwt.decode` from python-jose (jwtauthenticator/jwtauthenticator.py:38): signature, expiry and audience checks happen in a foreign library. They are the `decode` parameter.
- Reading the certificate file (jwtauthenticator/jwtauthenticator.py:37): filesystem I/O. It is part of the `decode` parameter, which receives the path and may answer `CertificateUnreadable`.
- `web.HTTPError(401)`, `user_from_username`, `set_login_cookie` and `redirect` (jwtauthenticator/jwtauthenticator.py:19, 25-27): framework calls. They appear as the `Unauthorized401` and `Authenticated(username, target)` outcomes.
- `url_path_join` (jwtauthenticator/jwtauthenticator.py:27): a framework function, kept as the unevaluated value `UrlPathJoin(base, "home")`.
- The HTTP status the framework sends for an exception that escapes `get` is not modelled; the model stops at `Failed(reason)`.
- The hub's `base_url` is a parameter (`hubBaseUrl`), read from framework state in the source.
- Tornado's case-insensitive header names and repeated headers: the model looks up the configured name as an exact key of a map of header values.
- Claim values that are not strings (numbers, lists): claims are a map from strings to strings.
- The traitlets declarations (jwtauthenticator/jwtauthenticator.py:59-86, 104-131) are kept only as their default values in `DefaultConfig`. The second authenticator class repeats the first one's defaults.
- `get_handlers` and `authenticate` (jwtauthenticator/jwtauthenticator.py:88-95, 134-141): routing and an operation that only raises NotImplementedError.
- setup.py: packaging metadata.
