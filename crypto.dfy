/**
 * bcrypt and jsonwebtoken as oracles. Their salting, signing, signature
 * checking and expiry timing are not modelled: a handler receives the
 * functions and the model states which arguments it passes to them and what
 * it does with their answers.
 */
module Crypto {
  import opened Wrappers
  import opened JsValues

  /** The `expiresIn` option given to `jwt.sign`: `'1h'` or `'24h'`. */
  datatype Expiry = OneHour | TwentyFourHours

  /** The claim set of a token; the standalone login signs `{ id }` only. */
  datatype Claims = Claims(id: int, email: Option<string>, nom: Option<JsVal>)

  datatype Oracles = Oracles(
    hash: string -> string,             // bcrypt.hash(plain, 10)
    compare: (string, string) -> bool,  // bcrypt.compare(plain, storedHash)
    sign: (Claims, Expiry) -> string,   // jwt.sign(claims, secret, { expiresIn })
    verify: string -> Option<Claims>)   // jwt.verify(token, secret): the payload, or None on any error
}
