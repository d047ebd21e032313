/**
  The authentication gate in front of the prediction route, and the token
  issuer used by login. The gate is a pure decision over one request: pass
  it on (possibly annotated with the authenticated subject), answer 401, or
  fail with the `IndexError` that the header split can raise.
 */
module JwtMiddleware {
  import opened Wrappers
  import opened Text
  import opened Jwt

  const JwtSecretKey: string := "your_jwt_secret_key_here"
  /** The only algorithm tokens are signed and accepted with; `Codec`
      stands for it. */
  const JwtAlgorithm: string := "HS256"

  /** The fixed credential table: username to plaintext password. */
  const Users: map<string, string> := map["user123" := "password123", "user456" := "password456"]

  /** The one protected route; the comparison with it is exact. */
  const PredictPath: string := "/v1/models/rf_classifier/predict"
  /** Header names arrive lower-cased; Starlette lower-cases the name it is
      asked for, so `headers.get("Authorization")` finds this name. */
  const AuthorizationHeader: string := "authorization"
  /** Token lifetime, one hour in seconds. */
  const TokenTtl: int := 3600

  const MissingToken: string := "Missing authentication token"
  const TokenExpired: string := "Token has expired"
  const InvalidToken: string := "Invalid token"

  /** `request.state.user`: never set, or set to the token's `sub` claim
      (`None` when the token has none). */
  datatype StateUser = Unset | Assigned(sub: Option<string>)

  /** The parts of a request the gate looks at; `headers` in arrival order. */
  datatype Request = Request(path: string, headers: seq<(string, string)>, user: StateUser)

  /** What `dispatch` does with a request. */
  datatype Outcome =
    | CallNext(request: Request)            // handed once to the next handler
    | Reply(status: int, detail: string)    // JSON response `{"detail": ...}`
    | RaisedIndexError                      // uncaught, the server answers 500

  /** `headers.get(name)`: the value of the first header with that name. */
  function GetHeader(headers: seq<(string, string)>, name: string): (v: Option<string>)
    ensures v.None? <==> forall i :: 0 <= i < |headers| ==> headers[i].0 != name
    ensures v.Some? ==>
              exists i :: 0 <= i < |headers| && headers[i] == (name, v.value) &&
                          forall j :: 0 <= j < i ==> headers[j].0 != name
  {
    if headers == [] then None
    else if headers[0].0 == name then Some(headers[0].1)
    else
      var v := GetHeader(headers[1..], name);
      assert v.Some? ==> exists i :: 0 <= i < |headers[1..]| && headers[1..][i] == (name, v.value) &&
                          forall j :: 0 <= j < i ==> headers[1..][j].0 != name;
      assert v.Some? ==> exists i :: 0 < i < |headers| && headers[i] == (name, v.value) &&
                          forall j :: 0 <= j < i ==> headers[j].0 != name;
      v
  }

  /** The reply for each exception of `jwt.decode`. Every one of them is an
      `InvalidTokenError`, so the clause for expiry must come first; it does. */
  function RejectionFor(e: JwtError): (detail: string)
    ensures detail == TokenExpired <==> e == ExpiredSignatureError
    ensures detail == InvalidToken <==> e != ExpiredSignatureError
  {
    if e.ExpiredSignatureError? then TokenExpired else InvalidToken
  }

  /** The token a header carries, `header.split()[1]`, when it has one. */
  function TokenOf(header: string): (token: Option<string>)
    ensures token.Some? <==> |Words(header)| >= 2
    ensures token.Some? ==> IsWord(token.value)
  {
    var words := Words(header);
    if |words| < 2 then None else Some(words[1])
  }

  /** `JWTAuthMiddleware.dispatch` at time `now`. */
  function Dispatch(codec: Codec, req: Request, now: int): (r: Outcome)
    // other routes pass untouched, the header unread
    ensures req.path != PredictPath ==> r == CallNext(req)
    // a request passed on differs from the original at most in state.user
    ensures r.CallNext? ==> r.request.path == req.path && r.request.headers == req.headers
    ensures r.CallNext? && req.path == PredictPath ==> r.request.user.Assigned?
    // every reply is a 401 on the protected route
    ensures r.Reply? ==> req.path == PredictPath && r.status == 401
    ensures r.Reply? ==> r.detail in {MissingToken, TokenExpired, InvalidToken}
    // a missing or empty header, and only that, gets the missing-token reply
    ensures r == Reply(401, MissingToken) <==>
              req.path == PredictPath && GetHeader(req.headers, AuthorizationHeader) in {None, Some("")}
    // a non-empty header with fewer than two words fails the split
    ensures r.RaisedIndexError? <==>
              req.path == PredictPath &&
              match GetHeader(req.headers, AuthorizationHeader)
              case None => false
              case Some(h) => h != "" && TokenOf(h).None?
    // otherwise the second word is decoded with the service key: its
    // payload's `sub` becomes state.user, the expiry error becomes "Token has
    // expired" and every other decode error "Invalid token"
    ensures req.path == PredictPath && GetHeader(req.headers, AuthorizationHeader).Some? &&
            TokenOf(GetHeader(req.headers, AuthorizationHeader).value).Some? ==>
              var d := Decode(codec, TokenOf(GetHeader(req.headers, AuthorizationHeader).value).value, JwtSecretKey, now);
              && (r.CallNext? <==> d.Payload?)
              && (r.CallNext? ==> r.request == req.(user := Assigned(d.claims.sub)))
              && (r == Reply(401, TokenExpired) <==> d == Raised(ExpiredSignatureError))
              && (r == Reply(401, InvalidToken) <==> d.Raised? && d.error != ExpiredSignatureError)
  {
    if req.path != PredictPath then CallNext(req)
    else match GetHeader(req.headers, AuthorizationHeader)
      case None => Reply(401, MissingToken)
      case Some(header) =>
        if header == "" then Reply(401, MissingToken)
        else match TokenOf(header)
          case None => RaisedIndexError
          case Some(token) =>
            match Decode(codec, token, JwtSecretKey, now)
            case Raised(e) => Reply(401, RejectionFor(e))
            case Payload(c) => CallNext(req.(user := Assigned(c.sub)))
  }

  /** The claims `create_jwt_token` puts in a token issued at `now`: the
      user as subject, good until one hour later. */
  function IssuedClaims(userId: string, now: int): (c: Claims)
    ensures c.sub == Some(userId)
    ensures forall t :: Expired(c, t) <==> now + TokenTtl <= t
  {
    Claims(Some(userId), Some(now + TokenTtl))
  }

  /** `create_jwt_token(user_id)` at time `now`. Under the codec laws the
      token is one word that the service key verifies to the issued claims,
      and that no other key verifies. */
  function CreateJwtToken(codec: Codec, userId: string, now: int): (token: string)
    ensures Lawful(codec) ==> IsWord(token)
    ensures Lawful(codec) ==> codec.verify(token, JwtSecretKey) == Verified(IssuedClaims(userId, now))
    ensures Lawful(codec) ==> forall key :: key != JwtSecretKey ==> codec.verify(token, key) == BadSignature
  {
    codec.sign(IssuedClaims(userId, now), JwtSecretKey)
  }

  /** A fresh token names its user and stays good for exactly one hour: it
      decodes to its user at every time before `now + 3600` and is expired
      from then on. */
  lemma TokenLifetime(codec: Codec, userId: string, now: int, t: int)
    requires Lawful(codec)
    ensures IsWord(CreateJwtToken(codec, userId, now))
    ensures Decode(codec, CreateJwtToken(codec, userId, now), JwtSecretKey, t)
              == if t < now + TokenTtl then Payload(Claims(Some(userId), Some(now + TokenTtl)))
                 else Raised(ExpiredSignatureError)
  {
  }

  /** A token just issued decodes, at its issuance time, to a payload whose
      `sub` is the user and whose `exp` lies ahead. */
  lemma IssuedTokenNotExpired(codec: Codec, userId: string, now: int)
    requires Lawful(codec)
    ensures var d := Decode(codec, CreateJwtToken(codec, userId, now), JwtSecretKey, now);
            d.Payload? && d.claims.sub == Some(userId) && d.claims.exp.Some? && d.claims.exp.value > now
  {
  }

  /** Any header whose second word the service key verifies to unexpired
      claims is passed on with `state.user` set to their subject, whoever
      produced the token. */
  lemma VerifiedTokenForwarded(codec: Codec, req: Request, header: string, c: Claims, now: int)
    requires req.path == PredictPath && GetHeader(req.headers, AuthorizationHeader) == Some(header)
    requires TokenOf(header).Some? && codec.verify(TokenOf(header).value, JwtSecretKey) == Verified(c)
    requires !Expired(c, now)
    ensures Dispatch(codec, req, now) == CallNext(req.(user := Assigned(c.sub)))
  {
  }

  /** Any header whose second word the service key does not verify, a
      tampered token or no token at all, gets "Invalid token". */
  lemma UnverifiedTokenRejected(codec: Codec, req: Request, header: string, now: int)
    requires req.path == PredictPath && GetHeader(req.headers, AuthorizationHeader) == Some(header)
    requires TokenOf(header).Some? && !codec.verify(TokenOf(header).value, JwtSecretKey).Verified?
    ensures Dispatch(codec, req, now) == Reply(401, InvalidToken)
  {
  }

  /** A request on the protected route whose Authorization header is
      optional whitespace, any scheme word, whitespace, a token signed with
      the service key and optionally more words, is passed on with
      `state.user` set to the token's subject, as long as the token has not
      expired. The scheme word is not checked. */
  lemma SignedTokenForwarded(codec: Codec, req: Request, lead: string, scheme: string, sep: string,
                             c: Claims, tail: string, now: int)
    requires Lawful(codec)
    requires req.path == PredictPath && IsBlank(lead) && IsWord(scheme) && sep != [] && IsBlank(sep)
    requires tail == [] || IsSpace(tail[0])
    requires GetHeader(req.headers, AuthorizationHeader) == Some(lead + scheme + sep + codec.sign(c, JwtSecretKey) + tail)
    requires !Expired(c, now)
    ensures Dispatch(codec, req, now) == CallNext(req.(user := Assigned(c.sub)))
  {
    SecondWordIs(lead, scheme, sep, codec.sign(c, JwtSecretKey), tail);
  }

  /** The same header with an expired token gets "Token has expired". */
  lemma ExpiredTokenRejected(codec: Codec, req: Request, lead: string, scheme: string, sep: string,
                             c: Claims, tail: string, now: int)
    requires Lawful(codec)
    requires req.path == PredictPath && IsBlank(lead) && IsWord(scheme) && sep != [] && IsBlank(sep)
    requires tail == [] || IsSpace(tail[0])
    requires GetHeader(req.headers, AuthorizationHeader) == Some(lead + scheme + sep + codec.sign(c, JwtSecretKey) + tail)
    requires Expired(c, now)
    ensures Dispatch(codec, req, now) == Reply(401, TokenExpired)
  {
    SecondWordIs(lead, scheme, sep, codec.sign(c, JwtSecretKey), tail);
  }

  /** A token signed with any other key gets "Invalid token", expired or
      not. */
  lemma ForeignTokenRejected(codec: Codec, req: Request, lead: string, scheme: string, sep: string,
                             c: Claims, key: string, tail: string, now: int)
    requires Lawful(codec) && key != JwtSecretKey
    requires req.path == PredictPath && IsBlank(lead) && IsWord(scheme) && sep != [] && IsBlank(sep)
    requires tail == [] || IsSpace(tail[0])
    requires GetHeader(req.headers, AuthorizationHeader) == Some(lead + scheme + sep + codec.sign(c, key) + tail)
    ensures Dispatch(codec, req, now) == Reply(401, InvalidToken)
  {
    SecondWordIs(lead, scheme, sep, codec.sign(c, key), tail);
  }

  /** A second word that is not a token at all gets "Invalid token". */
  lemma MalformedTokenRejected(codec: Codec, req: Request, lead: string, scheme: string, sep: string,
                               token: string, tail: string, now: int)
    requires req.path == PredictPath && IsBlank(lead) && IsWord(scheme) && sep != [] && IsBlank(sep)
    requires IsWord(token) && (tail == [] || IsSpace(tail[0]))
    requires codec.verify(token, JwtSecretKey) == Malformed
    requires GetHeader(req.headers, AuthorizationHeader) == Some(lead + scheme + sep + token + tail)
    ensures Dispatch(codec, req, now) == Reply(401, InvalidToken)
  {
    SecondWordIs(lead, scheme, sep, token, tail);
  }

  /** A header of one word ("Bearer" alone, or a bare token without a
      scheme) is not turned into a 401: the split raises `IndexError`. */
  lemma OneWordHeaderRaises(codec: Codec, req: Request, header: string, now: int)
    requires req.path == PredictPath && IsWord(header)
    requires GetHeader(req.headers, AuthorizationHeader) == Some(header)
    ensures Dispatch(codec, req, now) == RaisedIndexError
  {
    WordsOfWord(header);
  }

  /** A header of whitespace only is present and non-empty, and raises
      `IndexError` too. */
  lemma BlankHeaderRaises(codec: Codec, req: Request, header: string, now: int)
    requires req.path == PredictPath && header != [] && IsBlank(header)
    requires GetHeader(req.headers, AuthorizationHeader) == Some(header)
    ensures Dispatch(codec, req, now) == RaisedIndexError
  {
    WordsOfBlank(header);
  }
}
