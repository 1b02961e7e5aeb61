/** The user guard `authenticateToken` and the role gate `restrictTo`
    (backend/middleware/authmiddleware.js). Unlike the vendor guard, this
    one lets an unverified account through, and any failure of
    `jwt.verify`, expiry included, gets the same 403. */
module AuthMiddleware {
  import opened Common
  import opened Strings
  import opened Tokens
  import opened UserState

  /** `req.user`: the acting user as the handlers see it. */
  datatype UserPrincipal = UserPrincipal(id: Id, email: string, name: string, role: Role)

  const TokenMissing := "Token missing"
  const UnknownUser := "Unauthorized: User not found"
  const AuthFailed := "Authentication failed"
  const AccessDenied := "Access denied: Insufficient permissions"

  /** The user id a token names, `decoded._id`: the payload of a vendor
      token has none, and `User.findById(undefined)` finds nothing. */
  function TokenUser(c: TokenCheck): Option<Id>
  {
    if c.Decoded? && c.claims.UserClaims? then Some(c.claims.userId) else None
  }

  function AuthenticateUser(header: Option<string>, verify: string -> TokenCheck,
                            users: map<Id, User>): (g: Guard<UserPrincipal>)
    ensures BearerToken(header).None? ==> g == Deny(401, TokenMissing)
    ensures BearerToken(header).Some? && !verify(BearerToken(header).value).Decoded? ==>
      g == Deny(403, AuthFailed)
    ensures g.Pass? <==>
      && BearerToken(header).Some?
      && var id := TokenUser(verify(BearerToken(header).value));
         id.Some? && id.value in users
    ensures g.Pass? ==>
      var id := TokenUser(verify(BearerToken(header).value)).value;
      g.principal == UserPrincipal(id, users[id].email, users[id].name, users[id].role)
    ensures BearerToken(header).Some? && verify(BearerToken(header).value).Decoded? && !g.Pass? ==>
      g == Deny(401, UnknownUser)
    ensures g.Deny? ==> g.status in {401, 403}
  {
    var token := BearerToken(header);
    if token.None? then Deny(401, TokenMissing)
    else
      var check := verify(token.value);
      if !check.Decoded? then Deny(403, AuthFailed)
      else
        var id := TokenUser(check);
        if id.None? || id.value !in users then Deny(401, UnknownUser)
        else
          var u := users[id.value];
          Pass(UserPrincipal(id.value, u.email, u.name, u.role))
  }

  /** `restrictTo(...allowedRoles)`: the request goes on exactly when the
      guard set `req.user` and its role is one of those allowed. */
  function RestrictTo(allowed: seq<Role>, user: Option<UserPrincipal>): (g: Guard<UserPrincipal>)
    ensures g.Pass? <==> user.Some? && user.value.role in allowed
    ensures g.Pass? ==> g.principal == user.value
    ensures g.Deny? ==> g == Deny(403, AccessDenied)
  {
    if user.None? || user.value.role !in allowed then Deny(403, AccessDenied) else Pass(user.value)
  }

  /** The token a user receives at login, sent as `Bearer <token>`, lets
      that user through whether or not the account is verified, and the
      principal is read from the stored record. */
  lemma LoginTokenAuthenticates(sign: Claims -> string, verify: string -> TokenCheck,
                                users: map<Id, User>, id: Id, c: Claims)
    requires SignVerifies(sign, verify)
    requires id in users && c.UserClaims? && c.userId == id
    ensures AuthenticateUser(Some("Bearer " + sign(c)), verify, users)
            == Pass(UserPrincipal(id, users[id].email, users[id].name, users[id].role))
  {
    assert verify(sign(c)) == Decoded(c) && sign(c) != "" && ' ' !in sign(c);
    assert "Bearer " + sign(c) == "Bearer" + " " + sign(c);
    BearerTokenOfHeader("Bearer", sign(c));
  }

  /** A vendor token, even a valid one, never passes the user guard. */
  lemma VendorTokenDenied(sign: Claims -> string, verify: string -> TokenCheck,
                          users: map<Id, User>, c: Claims)
    requires SignVerifies(sign, verify) && c.VendorClaims?
    ensures AuthenticateUser(Some("Bearer " + sign(c)), verify, users) == Deny(401, UnknownUser)
  {
    assert verify(sign(c)) == Decoded(c) && sign(c) != "" && ' ' !in sign(c);
    assert "Bearer " + sign(c) == "Bearer" + " " + sign(c);
    BearerTokenOfHeader("Bearer", sign(c));
  }

  /** The admin-only route runs the guard and then `restrictTo('admin')`:
      it opens exactly to a token naming a stored user whose role, as
      stored now, is `admin`. */
  lemma AdminGate(header: Option<string>, verify: string -> TokenCheck, users: map<Id, User>)
    ensures var g := AuthenticateUser(header, verify, users);
      (g.Pass? && RestrictTo([Admin], Some(g.principal)).Pass?) <==>
      && BearerToken(header).Some?
      && var id := TokenUser(verify(BearerToken(header).value));
         id.Some? && id.value in users && users[id.value].role == Admin
  {
  }
}
