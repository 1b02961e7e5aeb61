/** Bearer tokens as both guards read them. jsonwebtoken is not opened up:
    signing and verification are functions the caller supplies, related by
    `SignVerifies`, the round trip the library promises for a fixed
    secret. */
module Tokens {
  import opened Common
  import opened Strings

  /** The payload the two login handlers sign. */
  datatype Claims =
    | VendorClaims(vendorId: Id, email: string, name: string)
    | UserClaims(userId: Id, email: string, name: string, role: Role)

  /** What `jwt.verify` yields: the decoded payload, or the error it
      throws, with `TokenExpiredError` told apart from every other one. */
  datatype TokenCheck = Decoded(claims: Claims) | ExpiredToken | InvalidToken

  /** A guard either passes the request on with the principal it found, or
      answers it with a status and a message. */
  datatype Guard<+T> = Pass(principal: T) | Deny(status: nat, message: string)

  /** `jwt.verify(jwt.sign(c, secret), secret)` gives back `c`, and a
      signed token holds no space (it is three base64url segments joined
      by dots). */
  ghost predicate SignVerifies(sign: Claims -> string, verify: string -> TokenCheck)
  {
    forall c :: verify(sign(c)) == Decoded(c) && sign(c) != "" && ' ' !in sign(c)
  }

  /** `authHeader && authHeader.split(' ')[1]`, then `if (!token)`: the
      second space-separated piece of the header, when there is a header
      and that piece is a non-empty string. */
  function BearerToken(header: Option<string>): (token: Option<string>)
    ensures token.Some? ==> token.value != "" && ' ' !in token.value
    ensures token.Some? <==>
      header.Some? && header.value != "" && |SplitSpace(header.value)| >= 2 && SplitSpace(header.value)[1] != ""
  {
    if header.None? || header.value == "" then None
    else
      var parts := SplitSpace(header.value);
      if |parts| >= 2 && parts[1] != "" then Some(parts[1]) else None
  }

  /** `Bearer <token>`, or any one-word scheme, one space and a token
      without spaces, yields exactly that token. */
  lemma BearerTokenOfHeader(scheme: string, token: string)
    requires ' ' !in scheme && ' ' !in token && token != ""
    ensures BearerToken(Some(scheme + " " + token)) == Some(token)
  {
    SplitAfterWord(scheme, token);
    NoSpaceSplit(token);
  }

  /** A header without a space, such as the bare token, carries no token:
      the guard answers 401. */
  lemma BareTokenIsMissing(token: string)
    requires ' ' !in token
    ensures BearerToken(Some(token)).None?
  {
    NoSpaceSplit(token);
  }

  /** Two spaces after the scheme leave an empty second piece: also no
      token. */
  lemma DoubleSpaceIsMissing(scheme: string, token: string)
    requires ' ' !in scheme
    ensures BearerToken(Some(scheme + "  " + token)).None?
  {
    assert scheme + "  " + token == scheme + " " + (" " + token);
    SplitAfterWord(scheme, " " + token);
    SplitAfterWord("", token);
    assert "" + " " + token == " " + token;
  }
}
