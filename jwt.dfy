/**
  The part of PyJWT the service relies on: `jwt.encode` and `jwt.decode`
  with HS256 and one symmetric key. Signing and signature checking are a
  parameter (`Codec`); `Lawful` states what the service needs of them.
 */
module Jwt {
  import opened Wrappers
  import opened Text

  /** The registered claims the service uses: subject and expiry time
      (seconds since the epoch). Either may be absent from a token. */
  datatype Claims = Claims(sub: Option<string>, exp: Option<int>)

  /** What checking a token's signature with a key can find. */
  datatype Verification =
    | Verified(claims: Claims)  // well formed and signed with this key
    | BadSignature              // well formed, signed with another key
    | Malformed                 // not a token at all

  /** HS256 encoding (`sign`) and signature checking (`verify`). */
  datatype Codec = Codec(
    sign: (Claims, string) -> string,
    verify: (string, string) -> Verification)

  /** The laws of a signing scheme: a token verifies with the key that
      signed it and yields its claims; with any other key it fails; and a
      token is one word (base64url segments and dots, no whitespace). */
  ghost predicate Lawful(codec: Codec) {
    && (forall c, key :: codec.verify(codec.sign(c, key), key) == Verified(c))
    && (forall c, key, other :: other != key ==> codec.verify(codec.sign(c, key), other) == BadSignature)
    && (forall c, key :: IsWord(codec.sign(c, key)))
  }

  /** The exceptions `jwt.decode` raises. All three derive from
      `jwt.InvalidTokenError`. */
  datatype JwtError = ExpiredSignatureError | InvalidSignatureError | DecodeError

  /** What `jwt.decode` does: return the payload or raise. */
  datatype DecodeResult = Payload(claims: Claims) | Raised(error: JwtError)

  /** An `exp` claim at or before `now` has passed (no leeway). */
  predicate Expired(c: Claims, now: int) {
    c.exp.Some? && c.exp.value <= now
  }

  /** `jwt.decode(token, key, algorithms=["HS256"])` at time `now`. */
  function Decode(codec: Codec, token: string, key: string, now: int): (r: DecodeResult)
    // the signature is checked before the expiry: a token is reported
    // expired only when it verified, and its payload only when unexpired
    ensures r == Raised(ExpiredSignatureError) <==>
              codec.verify(token, key).Verified? && Expired(codec.verify(token, key).claims, now)
    ensures r.Payload? <==>
              codec.verify(token, key).Verified? && !Expired(codec.verify(token, key).claims, now)
    ensures r.Payload? ==> codec.verify(token, key) == Verified(r.claims)
  {
    match codec.verify(token, key)
    case Verified(c) => if Expired(c, now) then Raised(ExpiredSignatureError) else Payload(c)
    case BadSignature => Raised(InvalidSignatureError)
    case Malformed => Raised(DecodeError)
  }

  /** A token decodes with the key it was signed with: its claims, or an
      expiry error once its `exp` has passed. */
  lemma DecodeOwnToken(codec: Codec, c: Claims, key: string, now: int)
    requires Lawful(codec)
    ensures Decode(codec, codec.sign(c, key), key, now)
              == if Expired(c, now) then Raised(ExpiredSignatureError) else Payload(c)
  {
  }

  /** A token signed with another key is rejected as invalid whatever its
      expiry: the signature check comes first. */
  lemma DecodeForeignToken(codec: Codec, c: Claims, key: string, other: string, now: int)
    requires Lawful(codec) && other != key
    ensures Decode(codec, codec.sign(c, other), key, now) == Raised(InvalidSignatureError)
  {
  }
}
