/** Requests, claims, tokens and signatures of the validator-facing authentication. */
module AuthTypes {
  import opened Prelude

  type Ip = nat

  /** A challenge string. The service draws it at random; here every draw is a fresh number. */
  type Nonce = nat

  /** What a token is encoded with. */
  datatype Claims = Claims(ip: Ip, pubkey: Pubkey, expiresAt: Time)

  /** An instant cut to whole seconds, as a Unix timestamp keeps it. */
  function WholeSeconds(t: Time): Time { t / NANOS_PER_SEC * NANOS_PER_SEC }

  /** A JWT. Signing is ideal: a token verifies exactly when this service has issued it. */
  datatype Token = Token(claims: Claims)

  /** The token issued for some claims; its expiry travels as a Unix timestamp. */
  function Issue(claims: Claims): Token {
    Token(claims.(expiresAt := WholeSeconds(claims.expiresAt)))
  }

  /** A stored challenge with the claims its tokens will carry. */
  datatype Challenge = Challenge(nonce: Nonce, access: Claims, refresh: Claims, expiresAt: Time)

  /** The text a client signs: "pubkey-challenge", or anything else. */
  datatype Text = Expected(pubkey: Pubkey, nonce: Nonce) | Other

  /** Ed25519, ideal: a signature verifies under a key for a text exactly when that key made it over that text. */
  datatype Signature = Signature(signer: Pubkey, text: Text) | Malformed

  predicate Verifies(sig: Signature, pubkey: Pubkey, text: Text) {
    sig == Signature(pubkey, text)
  }

  predicate IsExpired(expiresAt: Time, now: Time) { expiresAt <= now }

  datatype Status = Internal | ResourceExhausted | InvalidArgument | PermissionDenied
}
