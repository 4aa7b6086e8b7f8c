/** The JSON Web Token codec (RFC 7519) as the session managers use it, kept
    abstract: a signed token carries its claims and the secret it was signed
    with, standing for a perfect message authentication code, and verification
    succeeds exactly with that secret. Anything a client sends that was not
    produced by `Sign` is a `Raw` token. Expiry is not checked. */
module Jwt {
  import opened Wrappers

  type Secret = string

  datatype Token<P> =
    | Raw(text: string)
    | Signed(claims: P, key: Secret, expiresIn: int, issuedAt: int)

  datatype VerifyError =
    | MissingSecret     // "secret or public key must be provided"
    | BadSignature      // "invalid signature"
    | Malformed         // "jwt malformed"

  /** The empty string, which the managers reject before any lookup. */
  predicate IsEmpty<P>(t: Token<P>) {
    t == Raw("")
  }

  /** `jwt.sign(claims, key, { expiresIn })` at clock reading `now`. */
  function Sign<P>(claims: P, key: Secret, expiresIn: int, now: int): (t: Token<P>)
    ensures t.Signed? && t.claims == claims && t.key == key
  {
    Signed(claims, key, expiresIn, now)
  }

  /** `jwt.verify(token, key)`; `key` is `None` when the store held no secret. */
  function Verify<P>(t: Token<P>, key: Option<Secret>): (r: Result<P, VerifyError>)
    ensures r.Success? <==> t.Signed? && key == Some(t.key) && t.key != ""
    ensures r.Success? ==> r.value == t.claims
  {
    if key.None? || key.value == "" then Failure(MissingSecret)
    else match t
      case Raw(_) => Failure(Malformed)
      case Signed(claims, k, _, _) => if k == key.value then Success(claims) else Failure(BadSignature)
  }

  /** `jwt.decode(token)`: the claims without checking the signature. */
  function Decode<P>(t: Token<P>): (r: Option<P>)
    ensures r.Some? <==> t.Signed?
    ensures t.Signed? ==> r.value == t.claims
  {
    match t
    case Raw(_) => None
    case Signed(claims, _, _, _) => Some(claims)
  }

  /** A token verifies against the secret it was signed with. */
  lemma VerifySigned<P>(claims: P, key: Secret, expiresIn: int, now: int)
    requires key != ""
    ensures Verify(Sign(claims, key, expiresIn, now), Some(key)) == Success(claims)
    ensures Decode(Sign(claims, key, expiresIn, now)) == Some(claims)
  {
  }
}
