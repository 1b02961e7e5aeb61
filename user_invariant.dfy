/** The user invariant `Inv` survives every user handler, and the account
    life cycle runs as the controller intends: a registered user verifies
    with the mailed code inside its window and can then log in; a code is
    good once; a reissued code replaces the old one; a new password
    replaces the old one. */
module UserInvariant {
  import opened Common
  import opened Tokens
  import opened UserState
  import opened AuthMiddleware
  import opened UserHandlers

  // ---------------------------------------------------------------------
  // The three kinds of write
  // ---------------------------------------------------------------------

  /** Inserting a well-formed user under a fresh id and an unused e-mail. */
  lemma UserAdded(db: UserDb, u: User)
    requires Inv(db) && UserWellFormed(u)
    requires forall id :: id in db.users ==> db.users[id].email != u.email
    ensures Inv(UserDb(db.users[db.nextId := u], db.nextId + 1))
  {
    var grown := db.users[db.nextId := u];
    forall a, b | a in grown && b in grown && grown[a].email == grown[b].email
      ensures a == b
    {
      assert a != db.nextId ==> a in db.users;
      assert b != db.nextId ==> b in db.users;
    }
  }

  /** Replacing a user by a well-formed one with the same e-mail. */
  lemma UserReplaced(db: UserDb, id: Id, u: User)
    requires Inv(db) && id in db.users && UserWellFormed(u)
    requires u.email == db.users[id].email
    ensures Inv(db.(users := db.users[id := u]))
  {
    var changed := db.users[id := u];
    forall a, b | a in changed && b in changed && changed[a].email == changed[b].email
      ensures a == b
    {
      assert db.users[a].email == changed[a].email && db.users[b].email == changed[b].email;
    }
  }

  /** Removing a user. */
  lemma UserRemoved(db: UserDb, id: Id)
    requires Inv(db)
    ensures Inv(db.(users := db.users - {id}))
  {
  }

  // ---------------------------------------------------------------------
  // Every handler keeps the invariant
  // ---------------------------------------------------------------------

  lemma RegisterKeeps(db: UserDb, b: RegisterBody, draw: nat, now: Millis, salt: nat, mailed: bool)
    requires Inv(db)
    ensures Inv(Register(db, b, draw, now, salt, mailed).db)
  {
    var s := Register(db, b, draw, now, salt, mailed);
    if s.db != db {
      UserAdded(db, NewUser(b, GenerateOtp(draw), now, salt));
    }
  }

  lemma VerifyOtpKeeps(db: UserDb, b: OtpBody, now: Millis)
    requires Inv(db)
    ensures Inv(VerifyOtp(db, b, now).db)
  {
    if VerifyOtp(db, b, now).answer.Ok? {
      var id := FindUser(db.users, b.email.value).value;
      UserReplaced(db, id, MarkVerified(db.users[id]));
    }
  }

  lemma ResendOtpKeeps(db: UserDb, email: Option<string>, draw: nat, now: Millis, mailed: bool)
    requires Inv(db)
    ensures Inv(ResendOtp(db, email, draw, now, mailed).db)
  {
    if Given(email) && exists id :: id in db.users && db.users[id].email == email.value && !db.users[id].isVerified {
      var id := FindUser(db.users, email.value).value;
      var u := db.users[id];
      assert UserWellFormed(u);
      UserReplaced(db, id, WithNewCode(u, GenerateOtp(draw), now));
    }
  }

  lemma UpdateUserKeeps(db: UserDb, actor: Option<UserPrincipal>, b: ProfileBody, mailed: bool)
    requires Inv(db)
    ensures Inv(UpdateUser(db, actor, b, mailed).db)
  {
    var account := AccountOf(db, actor, b.email, Given(b.email), EmailRequired);
    if account.Ok? {
      var u := db.users[account.value];
      assert UserWellFormed(u);
      UserReplaced(db, account.value, ApplyPatch(u, Changes(u, b)));
    }
  }

  lemma UpdatePasswordKeeps(db: UserDb, actor: Option<UserPrincipal>, b: PasswordBody, salt: nat, mailed: bool)
    requires Inv(db)
    ensures Inv(UpdatePassword(db, actor, b, salt, mailed).db)
  {
    var fields := Given(b.email) && Given(b.currentPassword) && Given(b.newPassword);
    var account := AccountOf(db, actor, b.email, fields, PasswordFieldsRequired);
    if account.Ok? {
      var u := db.users[account.value];
      assert UserWellFormed(u);
      UserReplaced(db, account.value, u.(password := Hash(b.newPassword.value, salt)));
    }
  }

  lemma DeleteAccountKeeps(db: UserDb, actor: Option<UserPrincipal>, b: Credentials, mailed: bool)
    requires Inv(db)
    ensures Inv(DeleteAccount(db, actor, b, mailed).db)
  {
    var account := AccountOf(db, actor, b.email, Given(b.email) && Given(b.password), CredentialsRequired);
    if account.Ok? {
      UserRemoved(db, account.value);
    }
  }

  // ---------------------------------------------------------------------
  // The account life cycle
  // ---------------------------------------------------------------------

  /** A complete registration body with a valid role, or none. */
  predicate Complete(b: RegisterBody)
  {
    && Given(b.name) && Given(b.email) && Given(b.password) && Given(b.phoneNumber) && Given(b.address)
    && '@' in b.email.value && (Given(b.role) ==> ParseRole(b.role.value).Some?)
  }

  /** A complete registration under a new e-mail stores an unverified user
      holding the mailed code; that code, sent back within ten minutes,
      verifies the account. */
  lemma RegisterThenVerify(db: UserDb, b: RegisterBody, draw: nat, now: Millis, salt: nat, mailed: bool,
                           later: Millis)
    requires Inv(db) && Complete(b)
    requires forall id :: id in db.users ==> db.users[id].email != b.email.value
    requires now <= later <= now + OtpWindow
    ensures var s := Register(db, b, draw, now, salt, mailed);
      && s.db.users[db.nextId].email == b.email.value && !s.db.users[db.nextId].isVerified
      && VerifyOtp(s.db, OtpBody(b.email, Some(GenerateOtp(draw))), later).answer.Ok?
  {
    var s := Register(db, b, draw, now, salt, mailed);
    RegisterKeeps(db, b, draw, now, salt, mailed);
    assert s.db.users[db.nextId] == NewUser(b, GenerateOtp(draw), now, salt);
    assert OtpAccepts(s.db.users[db.nextId], GenerateOtp(draw), later);
  }

  /** A code is good once: the second time it is sent back, the account is
      already verified. */
  lemma VerifyTwiceRefused(db: UserDb, b: OtpBody, now: Millis, later: Millis)
    requires Inv(db) && VerifyOtp(db, b, now).answer.Ok?
    ensures VerifyOtp(VerifyOtp(db, b, now).db, b, later).answer == Err(AlreadyVerified)
  {
    var id := FindUser(db.users, b.email.value).value;
    var after := VerifyOtp(db, b, now).db;
    VerifyOtpKeeps(db, b, now);
    assert after.users[id].email == b.email.value && after.users[id].isVerified;
  }

  /** After a resend, the previous code no longer verifies the account
      (unless the new draw happens to give the same digits). */
  lemma ResendInvalidatesOldCode(db: UserDb, email: Option<string>, draw: nat, now: Millis, mailed: bool,
                                 previous: string, later: Millis)
    requires Inv(db) && Given(email) && previous != "" && previous != GenerateOtp(draw)
    requires exists id :: id in db.users && db.users[id].email == email.value && !db.users[id].isVerified
    ensures VerifyOtp(ResendOtp(db, email, draw, now, mailed).db, OtpBody(email, Some(previous)), later).answer
            == Err(InvalidOrExpiredOtp)
  {
    var id := FindUser(db.users, email.value).value;
    var after := ResendOtp(db, email, draw, now, mailed).db;
    ResendOtpKeeps(db, email, draw, now, mailed);
    assert after.users[id].email == email.value && !after.users[id].isVerified;
    assert !OtpAccepts(after.users[id], previous, later);
  }

  /** A verified user logs in with the registered password, and the token
      names that user. */
  lemma VerifiedUserLogsIn(db: UserDb, id: Id, password: string)
    requires Inv(db) && id in db.users && db.users[id].isVerified && db.users[id].email != ""
    requires password != "" && Matches(password, db.users[id].password)
    ensures Login(db, Credentials(Some(db.users[id].email), Some(password)))
            == Ok(UserClaims(id, db.users[id].email, db.users[id].name, db.users[id].role))
  {
    assert FindUser(db.users, db.users[id].email) == Some(id);
  }

  /** After a password change the new password logs in and any other,
      the old one included, is refused as incorrect. */
  lemma NewPasswordReplacesOld(db: UserDb, actor: Option<UserPrincipal>, b: PasswordBody, salt: nat,
                               mailed: bool, other: string)
    requires Inv(db) && UpdatePassword(db, actor, b, salt, mailed).db != db
    requires other != "" && Some(other) != b.newPassword
    ensures var after := UpdatePassword(db, actor, b, salt, mailed).db;
      && Login(after, Credentials(b.email, b.newPassword)).Ok?
      && Login(after, Credentials(b.email, Some(other))) == Err(IncorrectPassword)
  {
    var fields := Given(b.email) && Given(b.currentPassword) && Given(b.newPassword);
    var id := AccountOf(db, actor, b.email, fields, PasswordFieldsRequired).value;
    var u := db.users[id].(password := Hash(b.newPassword.value, salt));
    var after := UpdatePassword(db, actor, b, salt, mailed).db;
    assert after == db.(users := db.users[id := u]);
    UpdatePasswordKeeps(db, actor, b, salt, mailed);
    VerifiedUserLogsIn(after, id, b.newPassword.value);
    assert FindUser(after.users, b.email.value) == Some(id);
    HashAcceptsOnlyItsPlaintext(b.newPassword.value, other, salt);
  }

  /** Deleting an account removes that user's record and no other. */
  lemma DeleteRemovesOnlyTheActor(db: UserDb, actor: UserPrincipal, b: Credentials, mailed: bool)
    requires Inv(db) && Authenticated(db, Some(actor))
    requires DeleteAccount(db, Some(actor), b, mailed).db != db
    ensures var after := DeleteAccount(db, Some(actor), b, mailed).db;
      && actor.id !in after.users
      && forall id :: id in db.users && id != actor.id ==> id in after.users && after.users[id] == db.users[id]
  {
    assert FindUser(db.users, actor.email) == Some(actor.id);
  }

  /** A user who registered with the role `admin`, verified and logged in
      holds a token that opens the admin-only route. */
  lemma SelfRegisteredAdminPassesGate(sign: Claims -> string, verify: string -> TokenCheck,
                                      db: UserDb, id: Id, password: string)
    requires SignVerifies(sign, verify)
    requires Inv(db) && id in db.users && db.users[id].isVerified && db.users[id].email != ""
    requires db.users[id].role == Admin
    requires password != "" && Matches(password, db.users[id].password)
    ensures var token := Login(db, Credentials(Some(db.users[id].email), Some(password)));
      && token.Ok?
      && var g := AuthenticateUser(Some("Bearer " + sign(token.value)), verify, db.users);
         g.Pass? && RestrictTo([Admin], Some(g.principal)).Pass?
  {
    VerifiedUserLogsIn(db, id, password);
    LoginTokenAuthenticates(sign, verify, db.users, id,
                            UserClaims(id, db.users[id].email, db.users[id].name, db.users[id].role));
  }
}
