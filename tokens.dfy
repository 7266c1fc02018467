/**
 * The bearer-token conventions the server's middlewares share. A signed
 * token is opaque here: `decode` stands for `jwt.verify` with the server's
 * secret, giving the payload `(id, role)` or `None` when verification fails.
 */
module Tokens {
  import opened Wrappers
  import opened Text

  /** What a verified token tells the server about the caller. */
  datatype Claims = Claims(id: nat, role: Option<string>)

  /** An `Authorization` header JavaScript treats as false: absent or empty. */
  predicate Falsy(header: Option<string>) {
    header == None || header == Some("")
  }

  /**
   * `header.split(' ')[1]`, kept only when it is a non-empty string: where
   * JavaScript gives `undefined` or `""`, `jwt.verify` throws.
   */
  function Bearer(header: string): (r: Option<string>)
    ensures r.Some? <==> Field(header, ' ', 1).Some? && Field(header, ' ', 1).value != ""
    ensures r.Some? ==> r == Field(header, ' ', 1) && r.value != "" && ' ' !in r.value
  {
    match Field(header, ' ', 1)
    case None => None
    case Some(b) => if b == "" then None else Some(b)
  }

  /** `Bearer <token>` carries `<token>`. */
  lemma {:induction false} BearerOfScheme(scheme: string, token: string)
    requires ' ' !in scheme && ' ' !in token && token != ""
    ensures Bearer(scheme + " " + token) == Some(token)
  {
    assert scheme + " " + token == scheme + [' '] + token;
    SplitPrefix(scheme, token, ' ');
    SplitNoSeparator(token, ' ');
  }

  /** A header with no space in it has no second field, so no token. */
  lemma {:induction false} BearerNeedsSpace(header: string)
    requires ' ' !in header
    ensures Bearer(header) == None
  {
    SplitNoSeparator(header, ' ');
  }

  /** The claims of the header's bearer token, `None` when there is no token or it does not verify. */
  function BearerClaims(header: string, decode: string -> Option<Claims>): (r: Option<Claims>)
    ensures r.Some? <==> Bearer(header).Some? && decode(Bearer(header).value).Some?
    ensures r.Some? ==> r == decode(Bearer(header).value)
  {
    match Bearer(header)
    case None => None
    case Some(b) => decode(b)
  }
}
