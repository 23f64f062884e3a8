/** The two libraries the account routes lean on, as abstract operations: the
    password digest of models/Admin.js (bcrypt) and the signed session token
    with its check in middleware/auth.js (jsonwebtoken). */
module Credentials {
  import opened Common

  /** A stored password digest. The model keeps only what a caller can observe
      of bcrypt: a digest matches the password it was made from and no other.
      Salt, cost and the 72-byte truncation are not modelled. */
  datatype Digest = Digest(secret: string)

  function Hash(password: string): (d: Digest)
    ensures Matches(password, d)
  {
    Digest(password)
  }

  /** `bcrypt.compare(password, digest)`. */
  predicate Matches(password: string, d: Digest) {
    d.secret == password
  }

  lemma MatchesOnlyItsPassword(p: string, q: string)
    ensures Matches(q, Hash(p)) <==> q == p
  {
  }

  /** The payload a verified token yields. Tokens issued at login carry only the
      admin id (and the expiry); `email` is there because a route reads it. */
  datatype Claims = Claims(id: Option<Id>, email: Option<string>, expiresAt: Instant)

  /** A bearer token: one signed with the server's secret, or anything else
      (malformed, or signed with another key). */
  datatype Token = Signed(claims: Claims) | Foreign(text: string)

  /** `jwt.sign({ id }, secret, { expiresIn: '24h' })`. */
  function Sign(id: Id, now: Instant): (t: Token)
    ensures t.Signed? && t.claims.id == Some(id) && t.claims.expiresAt == now + DayMs
    ensures t.claims.email.None?
  {
    Signed(Claims(Some(id), None, now + DayMs))
  }

  /** `jwt.verify`: the payload of a token signed with the secret whose expiry
      is still ahead; every other token makes it throw (None). */
  function Verify(t: Token, now: Instant): (r: Option<Claims>)
    ensures r.Some? <==> t.Signed? && now < t.claims.expiresAt
    ensures r.Some? ==> r.value == t.claims
  {
    if t.Signed? && now < t.claims.expiresAt then Some(t.claims) else None
  }

  /** A token from login verifies to its admin for exactly 24 hours. */
  lemma SignedTokenLifetime(id: Id, issued: Instant, now: Instant)
    ensures Verify(Sign(id, issued), now).Some? <==> now < issued + DayMs
    ensures Verify(Sign(id, issued), now).Some? ==> Verify(Sign(id, issued), now).value.id == Some(id)
  {
  }

  /** The `auth` middleware in front of every fee, student and dashboard route:
      a request without a token, or with one that does not verify, is answered
      401 and never reaches its handler. */
  function Authenticate(token: Option<Token>, now: Instant): (r: Outcome<Claims>)
    ensures r.Ok? <==> token.Some? && Verify(token.value, now).Some?
    ensures r.Ok? ==> r.value == token.value.claims
    ensures r.Err? ==> r.failure == Unauthorized
  {
    match token
    case None => Err(Unauthorized)
    case Some(t) =>
      match Verify(t, now)
      case None => Err(Unauthorized)
      case Some(c) => Ok(c)
  }
}
