/**
 * bcrypt and jsonwebtoken are foreign code: the model takes them as
 * function-valued parameters. `Claims` is the payload the system signs.
 */
module Crypto {
  import opened Wrappers

  /** The payload `{ id, role }` that tokens carry. */
  datatype Claims = Claims(id: string, role: string)

  /** `expiresIn: "7d"`, in seconds. */
  const SevenDays: nat := 7 * 24 * 60 * 60

  /** `bcrypt.hash(password, 10)`, salt included. */
  type Hasher = string -> string

  /** `bcrypt.compare(password, hash)`. */
  type Comparer = (string, string) -> bool

  /** `jwt.sign(payload, secret, { expiresIn })`, the secret fixed. */
  type Signer = (Claims, nat) -> string

  /** `jwt.verify(token, secret)`: the decoded payload, or `None` when it throws. */
  type Verifier = string -> Option<Claims>
}
