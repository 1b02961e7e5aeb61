/** The vendor guard `authenticateToken` (backend/middleware/vendor_auth.js):
    it reads the bearer token, verifies it, loads the vendor it names and
    lets the request through only for a verified vendor. */
module VendorAuth {
  import opened Common
  import opened Strings
  import opened Tokens
  import opened VendorSchema

  /** `req.vendor`: the acting vendor as the handlers see it. */
  datatype VendorPrincipal = VendorPrincipal(id: Id, email: string, name: string)

  const NoToken := "Authentication required: No token provided"
  const UnknownVendor := "Unauthorized: Vendor not found or unverified"
  const TokenExpired := "Token expired, please log in again"
  const AuthFailed := "Authentication failed"

  /** The vendor id a token names, when it is a vendor token: the payload
      of a user token has no `vendorId`, and `Vendor.findById(undefined)`
      finds nothing. */
  function TokenVendor(c: TokenCheck): Option<Id>
  {
    if c.Decoded? && c.claims.VendorClaims? then Some(c.claims.vendorId) else None
  }

  function AuthenticateVendor(header: Option<string>, verify: string -> TokenCheck,
                              vendors: map<Id, Vendor>): (g: Guard<VendorPrincipal>)
    ensures BearerToken(header).None? ==> g == Deny(401, NoToken)
    ensures BearerToken(header).Some? && !verify(BearerToken(header).value).Decoded? ==>
      g.Deny? && g.status == 403
      && (g.message == TokenExpired <==> verify(BearerToken(header).value) == ExpiredToken)
    ensures g.Pass? <==>
      && BearerToken(header).Some?
      && var id := TokenVendor(verify(BearerToken(header).value));
         id.Some? && id.value in vendors && vendors[id.value].isVerified
    ensures g.Pass? ==>
      var id := TokenVendor(verify(BearerToken(header).value)).value;
      g.principal == VendorPrincipal(id, vendors[id].email, vendors[id].name)
    ensures BearerToken(header).Some? && verify(BearerToken(header).value).Decoded? && !g.Pass? ==>
      g == Deny(401, UnknownVendor)
    ensures g.Deny? ==> g.status in {401, 403}
  {
    var token := BearerToken(header);
    if token.None? then Deny(401, NoToken)
    else
      var check := verify(token.value);
      if check.ExpiredToken? then Deny(403, TokenExpired)
      else if check.InvalidToken? then Deny(403, AuthFailed)
      else
        var id := TokenVendor(check);
        if id.None? || id.value !in vendors || !vendors[id.value].isVerified then Deny(401, UnknownVendor)
        else
          var v := vendors[id.value];
          Pass(VendorPrincipal(id.value, v.email, v.name))
  }

  /** The token a verified vendor receives at login, sent as
      `Bearer <token>`, lets that vendor through, and the principal is read
      from the stored record: a name changed since login shows its new
      value. */
  lemma LoginTokenAuthenticates(sign: Claims -> string, verify: string -> TokenCheck,
                                vendors: map<Id, Vendor>, id: Id, signedName: string)
    requires SignVerifies(sign, verify)
    requires id in vendors && vendors[id].isVerified
    ensures AuthenticateVendor(Some("Bearer " + sign(VendorClaims(id, vendors[id].email, signedName))), verify, vendors)
            == Pass(VendorPrincipal(id, vendors[id].email, vendors[id].name))
  {
    var c := VendorClaims(id, vendors[id].email, signedName);
    assert verify(sign(c)) == Decoded(c) && sign(c) != "" && ' ' !in sign(c);
    assert "Bearer " + sign(c) == "Bearer" + " " + sign(c);
    BearerTokenOfHeader("Bearer", sign(c));
  }

  /** A user token, even a valid one, never passes the vendor guard. */
  lemma UserTokenDenied(sign: Claims -> string, verify: string -> TokenCheck,
                        vendors: map<Id, Vendor>, c: Claims)
    requires SignVerifies(sign, verify) && c.UserClaims?
    ensures AuthenticateVendor(Some("Bearer " + sign(c)), verify, vendors) == Deny(401, UnknownVendor)
  {
    assert verify(sign(c)) == Decoded(c) && sign(c) != "" && ' ' !in sign(c);
    assert "Bearer " + sign(c) == "Bearer" + " " + sign(c);
    BearerTokenOfHeader("Bearer", sign(c));
  }

  /** A vendor who has not verified the code is turned away even with a
      correctly signed token. */
  lemma UnverifiedVendorDenied(sign: Claims -> string, verify: string -> TokenCheck,
                               vendors: map<Id, Vendor>, id: Id, email: string, name: string)
    requires SignVerifies(sign, verify)
    requires id in vendors && !vendors[id].isVerified
    ensures AuthenticateVendor(Some("Bearer " + sign(VendorClaims(id, email, name))), verify, vendors)
            == Deny(401, UnknownVendor)
  {
    var c := VendorClaims(id, email, name);
    assert verify(sign(c)) == Decoded(c) && sign(c) != "" && ' ' !in sign(c);
    assert "Bearer " + sign(c) == "Bearer" + " " + sign(c);
    BearerTokenOfHeader("Bearer", sign(c));
  }
}
