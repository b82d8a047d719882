/** bcrypt, kept abstract.  A digest is symbolic: it records the salt it
    was made with and the password it was made from, and nothing but
    `Matches` looks inside it. */
module Crypto {

  datatype Digest = Digest(salt: nat, password: string)

  /** `bcrypt.hash(password, salt)`; the salt is random and is supplied by
      the caller. */
  function Hash(password: string, salt: nat): Digest
  {
    Digest(salt, password)
  }

  /** `bcrypt.compare(candidate, digest)` */
  predicate Matches(candidate: string, d: Digest)
  {
    candidate == d.password
  }
}
