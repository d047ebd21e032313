# University admission service: authentication and request mapping

This project models the request-handling core of a BentoML service that
serves a university-admission regression model. There are two endpoints:

- `login` checks a username and password against a fixed table. On a match it
  issues an HS256 JSON Web Token with `sub` set to the username and `exp` set to
  one hour after issuance.
- `predict` sits behind `JWTAuthMiddleware`. The middleware guards exactly one
  route, `/v1/models/rf_classifier/predict`. It reads the `Authorization`
  header, takes its second whitespace-separated word as the token, and decodes
  it with the service key. It then either answers 401 or passes the request on
  with `request.state.user` set to the token's subject. The handler builds a
  one-row frame of seven named columns from the validated input and returns the
  model's first output as `admission_chance`.

The modules are:

- `Wrappers` holds `Option`.
- `Text` models Python's `str.split()` with no argument.
- `Json` holds request-body values.
- `Jwt` models PyJWT's `decode` as seen by the service.
- `TokenWitness` is a concrete signing scheme.
- `JwtMiddleware` covers `src/jwt_middleware.py`.
- `Service` covers `src/service.py`.

Three things are parameters: the signing scheme (`Jwt.Codec`), the current time
(`now`, integer seconds), and the fitted model (a function from frames to
sequences of reals).

The signing scheme is abstract. `Jwt.Lawful` states the three laws the service
relies on:
- a token verifies with its own key and gives back its claims;
- with any other key it fails the signature check;
- it is a single whitespace-free word.

The lemmas about signed tokens assume these laws; the ones about headers that
hold no token, or a token the service key does not verify, do not need them.
`TokenWitness.WitnessLawful` proves that a concrete scheme meets the laws, so
the lemmas that assume them are not vacuous.

All operations are pure functions. `login` changes nothing: `USERS` is a
constant, and a refusal carries no token.

The model follows the code as written:
- The code does not check that the first header word is `Bearer`; the comment
  at src/jwt_middleware.py:23 says it removes the "Bearer " prefix, but the
  split keeps the second word whatever the first is
  (`JwtMiddleware.SignedTokenForwarded`).
- A non-empty header with fewer than two words does not become a 401. The split
  raises `IndexError`, which no except clause catches
  (`JwtMiddleware.OneWordHeaderRaises`, `JwtMiddleware.BlankHeaderRaises`).
- An empty header is treated like a missing one.
- Inference does not apply the training-time scaling. Raw field values reach the
  model (`Service.ServingSkipsTrainingScale`). The model records this and does
  not correct it.

## Model

| member | source | states |
|---|---|---|
| `Text.Words` | src/jwt_middleware.py:23 | every piece `split()` returns is a non-empty run of non-whitespace characters |
| `Text.WordsOfJoin` | src/jwt_middleware.py:23 | splitting undoes joining words with single spaces: `" ".join(ws).split() == ws` |
| `Text.WordsOfWord` | src/jwt_middleware.py:23 | a header that is a single word splits into just that word |
| `Text.WordsOfBlank` | src/jwt_middleware.py:23 | a whitespace-only header splits into no words |
| `Text.WordsAfterWord` | src/jwt_middleware.py:23 | a word followed by whitespace is split off first; the rest splits as if alone |
| `Text.SecondWordIs` | src/jwt_middleware.py:23 | in `lead + scheme + sep + token + tail` (leading whitespace, any scheme word, any run of whitespace), the second word is the token, whatever follows it after whitespace |
| `Jwt.Decode` | src/jwt_middleware.py:24 | the signature is checked before the expiry: the expiry error comes only for a token that verified, the payload only for one that verified and has not expired |
| `Jwt.DecodeOwnToken` | tests/test_service.py:12-35 | a token decodes with the key that signed it, to its claims, or raises the expiry error once `exp <= now` |
| `Jwt.DecodeForeignToken` | tests/test_service.py:45-57 | a token signed with any other key raises the invalid-signature error, expired or not |
| `TokenWitness.WitnessLawful` | src/jwt_middleware.py:24 | a concrete signing scheme meets all three laws of `Jwt.Lawful`, so they are consistent |
| `JwtMiddleware.GetHeader` | src/jwt_middleware.py:19 | the lookup finds nothing iff no header has the name; otherwise it returns the value of the first header with that name |
| `JwtMiddleware.TokenOf` | src/jwt_middleware.py:23 | `header.split()[1]` exists iff the header has at least two words, and it is a single word |
| `JwtMiddleware.RejectionFor` | src/jwt_middleware.py:25-28 | "Token has expired" exactly for the expiry error; every other decode error gives "Invalid token" |
| `JwtMiddleware.Dispatch` | src/jwt_middleware.py:16-31 | other paths pass through unchanged without reading the header; a forwarded request differs only in `state.user`, and on the protected path that field is set; every reply is a 401 with one of three details; the missing-token reply happens iff the header is absent or empty; `IndexError` happens iff the header is non-empty with fewer than two words; otherwise the second word is decoded with the service key, and the request is forwarded iff that gives a payload, with `state.user` set to its `sub`; "Token has expired" iff decoding raised the expiry error, "Invalid token" iff it raised any other error |
| `JwtMiddleware.IssuedClaims` | src/jwt_middleware.py:35-36 | the payload names the user as `sub` and is expired exactly from one hour after issuance |
| `JwtMiddleware.CreateJwtToken` | src/jwt_middleware.py:34-38 | under the codec laws the token is one word, the service key verifies it to the issued claims, and every other key finds a bad signature |
| `JwtMiddleware.TokenLifetime` | src/jwt_middleware.py:34-38 | an issued token is one word; it decodes to `{sub: user, exp: now + 3600}` at every time before `now + 3600` and is expired from then on |
| `JwtMiddleware.IssuedTokenNotExpired` | tests/test_service.py:12-22 | decoding a fresh token with the service key at its issuance time gives a payload whose `sub` is the user and whose `exp` lies ahead |
| `JwtMiddleware.VerifiedTokenForwarded` | src/jwt_middleware.py:23-30 | any header whose second word the service key verifies to unexpired claims is forwarded with `state.user` set to their `sub`, however the token was produced |
| `JwtMiddleware.UnverifiedTokenRejected` | src/jwt_middleware.py:24-28 | any header whose second word the service key does not verify (tampered, foreign or not a token) gets 401 "Invalid token" |
| `JwtMiddleware.SignedTokenForwarded` | src/jwt_middleware.py:23-31 | optional leading whitespace, any scheme word, whitespace, an unexpired token signed with the service key, and optional further words: the request is forwarded once with `state.user` set to the token's `sub` |
| `JwtMiddleware.ExpiredTokenRejected` | src/jwt_middleware.py:25-26 | the same header with an expired token gets 401 "Token has expired" |
| `JwtMiddleware.ForeignTokenRejected` | src/jwt_middleware.py:27-28 | a token signed with another key gets 401 "Invalid token", whatever its expiry |
| `JwtMiddleware.MalformedTokenRejected` | src/jwt_middleware.py:27-28 | a second word that is not a token at all gets 401 "Invalid token" |
| `JwtMiddleware.OneWordHeaderRaises` | src/jwt_middleware.py:23 | a one-word header, such as "Bearer" alone or a bare token, raises `IndexError` instead of getting a 401 |
| `JwtMiddleware.BlankHeaderRaises` | src/jwt_middleware.py:20-23 | a non-empty whitespace-only header passes the emptiness test and raises `IndexError` |
| `Json.Get` | src/service.py:29-30 | `credentials.get(key)`: the value under the key when present, `None` when absent |
| `Service.CheckField` | src/service.py:14-20 | a field passes iff it is present and holds an integer, or, for a float field, any number; it is reported missing iff absent |
| `Service.FieldErrors` | src/service.py:9-20 | no errors iff every field passes its check; each reported error names a field and that field's actual fault |
| `Service.FieldErrorsReport` | src/service.py:9-20 | every failing field is reported, with its own fault |
| `Service.ParseInput` | src/service.py:9-20 | a body validates iff all seven fields are present with their kinds; a rejection carries at least one error |
| `Service.BadFieldRejected` | tests/test_service.py:260-286 | a body missing any one of the seven fields, or holding a string where a number belongs, is rejected, and the error names that field and its fault |
| `Service.Login` | src/service.py:28-35 | a token is issued iff (username, password) is an entry of `USERS`, and it is issued to that username; every refusal is the same 401 "Invalid credentials"; a list or dict username raises `TypeError` |
| `Service.LoginRefusals` | tests/test_service.py:89-169 | an unknown user, a wrong password, a missing username and a missing password all get the identical 401 |
| `Service.LoginTokenOpensPredict` | src/service.py:31-33 | a token from a successful login, after any scheme word, opens the predict route with `state.user` set to the username for one hour, and is refused as expired afterwards |
| `Service.FeatureFrame` | src/service.py:40-48 | the frame has seven columns, one value each, named exactly `GRE Score, TOEFL Score, University Rating, SOP, LOR  (trailing space), CGPA, Research` in that order |
| `Service.FrameCarriesFields` | src/service.py:40-48 | column k holds the request's k-th field as sent: ints as ints, numbers as floats, nothing rescaled |
| `Service.Predict` | src/service.py:49-51 | the reply is the model's first output on the input's frame; an empty model output raises `IndexError` |
| `Service.PredictSeesOnlyItsFrame` | src/service.py:49-51 | the reply depends on the model only through its output on this input's frame |
| `Service.ServingSkipsTrainingScale` | src/data/prepare_data.py:23-25 | the served cell of each scaled column is the raw input field, which equals its training-time scaled value only when it is 0; every scaled training column is a frame column with the same spelling |
| `Service.ParseExample` | tests/test_service.py:326-344 | the tests' example body validates to the input with exactly those seven values |
| `Service.PredictExample` | tests/test_service.py:175-202 | a model answering 0.85 gives `admission_chance` 0.85 |

## Left out

- HS256 itself is not modelled: HMAC-SHA256, base64url, the JOSE header and the `algorithms=["HS256"]` check. The scheme is the `Codec` parameter, constrained only by the laws in `Jwt.Lawful`. The witness scheme's tag identifies the key but keeps nothing secret.
- Jwt.Lawful: the second law (any other key finds a bad signature) is stronger than HS256. HMAC pads keys shorter than 64 bytes with zero bytes and hashes longer ones, so some distinct keys, such as the service key followed by a zero byte, sign identically. The model does not capture these key equivalences.
- JwtMiddleware.ForeignTokenRejected: holds for every other key only through that law; in the source it holds only for keys HMAC tells apart from the service key. The same goes for `Jwt.DecodeForeignToken` and the third ensures of `JwtMiddleware.CreateJwtToken`.
- Jwt.Decode: only `exp` is checked. PyJWT also rejects a present `nbf` in the future, a malformed `iat` and a non-string `sub`. Tokens carrying those claims are not representable here, and service-issued tokens carry none of them.
- Time is whole seconds, passed in as `now`. The source reads the wall clock and stores `exp` as a float timestamp. Expiry is `exp <= now`, PyJWT's rule with zero leeway.
- Service.ParseInput: pydantic's lax coercions are not modelled. The source accepts numeric strings such as "320", integral floats and booleans for int fields; the model rejects them. Pydantic's exact error kinds and messages are not modelled either.
- Python floats are Dafny reals: IEEE rounding and `float()` conversion of NumPy values are not modelled.
- The async `dispatch`/`call_next` plumbing, `JSONResponse` serialisation, and the 500 response Starlette sends for an uncaught `IndexError` or `TypeError` are not modelled. These are outcomes of the model (`CallNext`, `Reply`, `RaisedIndexError`, `RaisedTypeError`).
- How the middleware is attached to the BentoML app is not part of this model.
- Loading the model artefact in `UniversityAdmissionService.__init__`, and the model's own computation, are not modelled; the model is a function parameter.
- Header bytes and their latin-1 decoding are not modelled. Header names are taken to arrive lower-cased, as ASGI delivers them.
- JSON values in `login` are modelled by kind only: numbers are `int` or `real`, and nested values are not inspected.
- The tests' malformed token `invalid.token.here` has no lemma of its own. Under the `Codec` parameter, a malformed second word is covered by `JwtMiddleware.MalformedTokenRejected`.
- src/data/load_data.py, src/data/prepare_data.py and src/model/train_model.py are not modelled: downloading, imputation, splitting, fitting and file output. Only the scaling table in src/data/prepare_data.py is used, as the contrast for `Service.ServingSkipsTrainingScale`.
