/** The password-hashing and token-signing primitives, left abstract: the
    hashing and signing libraries are outside the model, so every operation
    that needs them receives them as a value of type `Crypto`. */
module Credentials {
  import opened Common

  datatype Crypto = Crypto(
    hashPassword: string -> string,
    verifyPassword: (string, string) -> bool,
    generateToken: Claims -> string,
    verifyToken: string -> Option<Claims>)

  /** The hashing library's promise: a password verifies against its own hash. */
  ghost predicate PasswordsVerify(c: Crypto) {
    forall p :: c.verifyPassword(p, c.hashPassword(p))
  }

  /** The signing library's promise before expiry: a token is a non-empty
      string that decodes to the claims it was issued for. */
  ghost predicate TokensRoundTrip(c: Crypto) {
    forall claims :: c.generateToken(claims) != "" && c.verifyToken(c.generateToken(claims)) == Some(claims)
  }
}
