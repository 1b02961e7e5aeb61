/** The handlers of the user controller (backend/controllers/authcontroller.js)
    as functions of the user collection: each takes the users before the
    request and gives the users after it together with the answer. The
    store in user_controller.dfy runs the same steps in place. No route
    validator runs in front of these handlers; they check the body
    themselves, treating a missing or empty field alike. */
module UserHandlers {
  import opened Common
  import opened Tokens
  import opened UserState
  import opened AuthMiddleware

  datatype RegisterBody = RegisterBody(
    name: Option<string>, email: Option<string>, password: Option<string>,
    phoneNumber: Option<string>, address: Option<string>, role: Option<string>)

  datatype OtpBody = OtpBody(email: Option<string>, otp: Option<string>)

  /** The body of `login` and `deleteAccount`. */
  datatype Credentials = Credentials(email: Option<string>, password: Option<string>)

  datatype ProfileBody = ProfileBody(
    email: Option<string>, name: Option<string>, phoneNumber: Option<string>, address: Option<string>)

  datatype PasswordBody = PasswordBody(
    email: Option<string>, currentPassword: Option<string>, newPassword: Option<string>)

  /** A body field JavaScript reads as true: present and not the empty
      string. */
  predicate Given(f: Option<string>)
  {
    f.Some? && f.value != ""
  }

  datatype Failure =
    | MissingFields
    | InvalidEmailFormat
    | InvalidRole
    | UserExists
    | OtpFieldsRequired
    | EmailRequired
    | CredentialsRequired
    | PasswordFieldsRequired
    | UserNotFound
    | AlreadyVerified
    | InvalidOrExpiredOtp
    | IncorrectPassword
    | IncorrectCurrentPassword
    | EmailNotVerified
    | NoChanges
    | BadTokenOrEmail
    | ServerError

  /** The status each failure is sent with. */
  function Status(f: Failure): (code: nat)
    ensures code in {400, 401, 500}
    ensures code == 401 <==> f.BadTokenOrEmail?
    ensures code == 500 <==> f.ServerError?
  {
    match f
    case BadTokenOrEmail => 401
    case ServerError => 500
    case _ => 400
  }

  datatype Outcome<+T> = Ok(value: T) | Err(failure: Failure)

  /** The users after a request, and the answer. */
  datatype Step<+T> = Step(db: UserDb, answer: Outcome<T>)

  /** A handler that mails the user after its database work answers 500
      when sending throws, although the change is already stored. */
  function AfterMail<T>(value: T, mailed: bool): (r: Outcome<T>)
    ensures r.Ok? <==> mailed
    ensures r.Ok? ==> r.value == value
    ensures r.Err? ==> r.failure == ServerError
  {
    if mailed then Ok(value) else Err(ServerError)
  }

  /** `req.user` as the guard builds it: nothing, or a stored user as
      stored. */
  predicate Authenticated(db: UserDb, actor: Option<UserPrincipal>)
  {
    actor.Some? ==>
      && actor.value.id in db.users
      && var u := db.users[actor.value.id];
         actor.value == UserPrincipal(actor.value.id, u.email, u.name, u.role)
  }

  /** Whatever the guard lets through is an authenticated user. */
  lemma GuardAuthenticates(header: Option<string>, verify: string -> TokenCheck, db: UserDb)
    requires AuthenticateUser(header, verify, db.users).Pass?
    ensures Authenticated(db, Some(AuthenticateUser(header, verify, db.users).principal))
  {
  }

  // ---------------------------------------------------------------------
  // Registration and the one-time code
  // ---------------------------------------------------------------------

  /** `role: role || 'user'`, once a given role has been checked. */
  function ChosenRole(role: Option<string>): Role
  {
    if Given(role) && ParseRole(role.value).Some? then ParseRole(role.value).value else UserRole
  }

  /** `new User({ ... })` in `register`, as saved: the password hashed, the
      code kept as it was mailed. */
  function NewUser(b: RegisterBody, otp: string, now: Millis, salt: nat): User
    requires Given(b.name) && Given(b.email) && Given(b.password) && Given(b.phoneNumber) && Given(b.address)
  {
    User(b.name.value, b.email.value, Hash(b.password.value, salt), b.phoneNumber.value,
         b.address.value, Some(otp), Some(OtpExpiry(now)), false, ChosenRole(b.role))
  }

  function Register(db: UserDb, b: RegisterBody, draw: nat, now: Millis, salt: nat, mailed: bool): (s: Step<string>)
    requires UniqueEmails(db.users)
    ensures s.answer == Err(MissingFields) <==>
      !(Given(b.name) && Given(b.email) && Given(b.password) && Given(b.phoneNumber) && Given(b.address))
    ensures s.answer == Err(InvalidRole) ==> Given(b.role) && b.role.value !in ["user", "vendor", "deliverypartner", "admin"]
    ensures s.answer == Err(InvalidEmailFormat) <==>
      && Given(b.name) && Given(b.email) && Given(b.password) && Given(b.phoneNumber) && Given(b.address)
      && '@' !in b.email.value
    ensures s.answer == Err(InvalidRole) <==>
      && Given(b.name) && Given(b.email) && Given(b.password) && Given(b.phoneNumber) && Given(b.address)
      && '@' in b.email.value && Given(b.role) && ParseRole(b.role.value).None?
    ensures s.answer == Err(UserExists) <==>
      && Given(b.name) && Given(b.email) && Given(b.password) && Given(b.phoneNumber) && Given(b.address)
      && '@' in b.email.value && (Given(b.role) ==> ParseRole(b.role.value).Some?)
      && exists id :: id in db.users && db.users[id].email == b.email.value
    ensures
      if && Given(b.name) && Given(b.email) && Given(b.password) && Given(b.phoneNumber) && Given(b.address)
         && '@' in b.email.value && (Given(b.role) ==> ParseRole(b.role.value).Some?)
         && (forall id :: id in db.users ==> db.users[id].email != b.email.value)
      then
        && s.db == UserDb(db.users[db.nextId := NewUser(b, GenerateOtp(draw), now, salt)], db.nextId + 1)
        && s.answer == AfterMail(GenerateOtp(draw), mailed)
      else s.db == db && s.answer.Err?
  {
    if !(Given(b.name) && Given(b.email) && Given(b.password) && Given(b.phoneNumber) && Given(b.address)) then
      Step(db, Err(MissingFields))
    else if '@' !in b.email.value then Step(db, Err(InvalidEmailFormat))
    else if Given(b.role) && ParseRole(b.role.value).None? then Step(db, Err(InvalidRole))
    else if FindUser(db.users, b.email.value).Some? then Step(db, Err(UserExists))
    else
      var otp := GenerateOtp(draw);
      Step(UserDb(db.users[db.nextId := NewUser(b, otp, now, salt)], db.nextId + 1), AfterMail(otp, mailed))
  }

  /** `user.otp !== otp || user.otpExpiry < new Date()` does not hold: the
      code is compared as plain text, character for character. */
  predicate OtpAccepts(u: User, code: string, now: Millis)
  {
    u.otp == Some(code) && !(u.otpExpiry.Some? && Expired(u.otpExpiry.value, now))
  }

  /** `isVerified = true`, `otp` and `otpExpiry` cleared. */
  function MarkVerified(u: User): (w: User)
    ensures w.isVerified && w.otp.None? && w.otpExpiry.None?
    ensures w.(isVerified := u.isVerified, otp := u.otp, otpExpiry := u.otpExpiry) == u
  {
    u.(isVerified := true, otp := None, otpExpiry := None)
  }

  function VerifyOtp(db: UserDb, b: OtpBody, now: Millis): (s: Step<()>)
    requires UniqueEmails(db.users)
    ensures s.answer.Err? ==> s.db == db
    ensures s.answer == Err(OtpFieldsRequired) <==> !Given(b.email) || !Given(b.otp)
    ensures s.answer == Err(UserNotFound) <==>
      Given(b.email) && Given(b.otp) && forall id :: id in db.users ==> db.users[id].email != b.email.value
    ensures s.answer == Err(AlreadyVerified) <==>
      && Given(b.email) && Given(b.otp)
      && exists id :: id in db.users && db.users[id].email == b.email.value && db.users[id].isVerified
    ensures s.answer.Ok? <==>
      && Given(b.email) && Given(b.otp)
      && exists id :: && id in db.users && db.users[id].email == b.email.value
                      && !db.users[id].isVerified && OtpAccepts(db.users[id], b.otp.value, now)
    ensures s.answer.Ok? ==>
      var id := FindUser(db.users, b.email.value).value;
      s.db == db.(users := db.users[id := MarkVerified(db.users[id])])
  {
    if !Given(b.email) || !Given(b.otp) then Step(db, Err(OtpFieldsRequired))
    else
      var found := FindUser(db.users, b.email.value);
      if found.None? then Step(db, Err(UserNotFound))
      else
        var u := db.users[found.value];
        if u.isVerified then Step(db, Err(AlreadyVerified))
        else if !OtpAccepts(u, b.otp.value, now) then Step(db, Err(InvalidOrExpiredOtp))
        else Step(db.(users := db.users[found.value := MarkVerified(u)]), Ok(()))
  }

  /** A fresh code and a fresh expiry; nothing else changes. */
  function WithNewCode(u: User, otp: string, now: Millis): (w: User)
    ensures w.otp == Some(otp) && w.otpExpiry == Some(OtpExpiry(now))
    ensures w.(otp := u.otp, otpExpiry := u.otpExpiry) == u
  {
    u.(otp := Some(otp), otpExpiry := Some(OtpExpiry(now)))
  }

  function ResendOtp(db: UserDb, email: Option<string>, draw: nat, now: Millis, mailed: bool): (s: Step<string>)
    requires UniqueEmails(db.users)
    ensures s.answer == Err(EmailRequired) <==> !Given(email)
    ensures s.answer == Err(UserNotFound) <==>
      Given(email) && forall id :: id in db.users ==> db.users[id].email != email.value
    ensures s.answer == Err(AlreadyVerified) <==>
      Given(email) && exists id :: id in db.users && db.users[id].email == email.value && db.users[id].isVerified
    ensures
      if Given(email) && exists id :: id in db.users && db.users[id].email == email.value && !db.users[id].isVerified
      then
        var id := FindUser(db.users, email.value).value;
        && s.db == db.(users := db.users[id := WithNewCode(db.users[id], GenerateOtp(draw), now)])
        && s.answer == AfterMail(GenerateOtp(draw), mailed)
      else s.db == db
  {
    if !Given(email) then Step(db, Err(EmailRequired))
    else
      var found := FindUser(db.users, email.value);
      if found.None? then Step(db, Err(UserNotFound))
      else
        var u := db.users[found.value];
        if u.isVerified then Step(db, Err(AlreadyVerified))
        else
          var otp := GenerateOtp(draw);
          Step(db.(users := db.users[found.value := WithNewCode(u, otp, now)]), AfterMail(otp, mailed))
  }

  // ---------------------------------------------------------------------
  // Login
  // ---------------------------------------------------------------------

  /** `login`: the password is checked before the verification status,
      and the token carries the stored id, e-mail, name and role. */
  function Login(db: UserDb, b: Credentials): (r: Outcome<Claims>)
    requires UniqueEmails(db.users)
    ensures r == Err(CredentialsRequired) <==> !Given(b.email) || !Given(b.password)
    ensures r.Ok? <==>
      && Given(b.email) && Given(b.password)
      && exists id :: && id in db.users && db.users[id].email == b.email.value
                      && Matches(b.password.value, db.users[id].password) && db.users[id].isVerified
    ensures r.Ok? ==>
      && r.value.UserClaims? && r.value.userId in db.users
      && var u := db.users[r.value.userId];
         r.value == UserClaims(r.value.userId, u.email, u.name, u.role) && u.email == b.email.value
    ensures r == Err(IncorrectPassword) <==>
      && Given(b.email) && Given(b.password)
      && exists id :: && id in db.users && db.users[id].email == b.email.value
                      && !Matches(b.password.value, db.users[id].password)
    ensures r == Err(EmailNotVerified) <==>
      && Given(b.email) && Given(b.password)
      && exists id :: && id in db.users && db.users[id].email == b.email.value
                      && Matches(b.password.value, db.users[id].password) && !db.users[id].isVerified
  {
    if !Given(b.email) || !Given(b.password) then Err(CredentialsRequired)
    else
      var found := FindUser(db.users, b.email.value);
      if found.None? then Err(UserNotFound)
      else
        var u := db.users[found.value];
        if !Matches(b.password.value, u.password) then Err(IncorrectPassword)
        else if !u.isVerified then Err(EmailNotVerified)
        else Ok(UserClaims(found.value, u.email, u.name, u.role))
  }

  // ---------------------------------------------------------------------
  // Account changes behind the guard
  // ---------------------------------------------------------------------

  /** `updatedFields`: a field is written when it is given and differs from
      the stored value. */
  datatype Patch = Patch(name: Option<string>, phoneNumber: Option<string>, address: Option<string>)

  function Differs(given: Option<string>, stored: string): (kept: Option<string>)
    ensures kept.Some? <==> Given(given) && given.value != stored
    ensures kept.Some? ==> kept == given
  {
    if Given(given) && given.value != stored then given else None
  }

  function Changes(u: User, b: ProfileBody): Patch
  {
    Patch(Differs(b.name, u.name), Differs(b.phoneNumber, u.phoneNumber), Differs(b.address, u.address))
  }

  predicate IsEmptyPatch(p: Patch)
  {
    p.name.None? && p.phoneNumber.None? && p.address.None?
  }

  /** `User.updateOne({ email }, updatedFields)`. */
  function ApplyPatch(u: User, p: Patch): (w: User)
    ensures w.name == (if p.name.Some? then p.name.value else u.name)
    ensures w.phoneNumber == (if p.phoneNumber.Some? then p.phoneNumber.value else u.phoneNumber)
    ensures w.address == (if p.address.Some? then p.address.value else u.address)
    ensures w.(name := u.name, phoneNumber := u.phoneNumber, address := u.address) == u
  {
    u.(name := if p.name.Some? then p.name.value else u.name,
       phoneNumber := if p.phoneNumber.Some? then p.phoneNumber.value else u.phoneNumber,
       address := if p.address.Some? then p.address.value else u.address)
  }

  /** Sending the same profile twice: the second request finds nothing to
      change. */
  lemma RepeatedUpdateChangesNothing(u: User, b: ProfileBody)
    ensures IsEmptyPatch(Changes(ApplyPatch(u, Changes(u, b)), b))
  {
  }

  /** The first checks of every handler behind the guard: `req.user` is set
      and names the body's e-mail (otherwise 401), then the required
      fields, then the account is looked up by that e-mail. */
  function AccountOf(db: UserDb, actor: Option<UserPrincipal>, email: Option<string>, fieldsGiven: bool,
                     missing: Failure): (g: Outcome<Id>)
    requires UniqueEmails(db.users) && missing != BadTokenOrEmail && missing != UserNotFound
    ensures g == Err(BadTokenOrEmail) <==> actor.None? || email != Some(actor.value.email)
    ensures g == Err(missing) <==> actor.Some? && email == Some(actor.value.email) && !fieldsGiven
    ensures g == Err(UserNotFound) <==>
      && actor.Some? && email == Some(actor.value.email) && fieldsGiven
      && forall id :: id in db.users ==> db.users[id].email != email.value
    ensures g.Ok? ==> g.value in db.users && db.users[g.value].email == email.value
    ensures g.Ok? ==> actor.Some? && fieldsGiven && email == Some(actor.value.email)
  {
    if actor.None? || email != Some(actor.value.email) then Err(BadTokenOrEmail)
    else if !fieldsGiven then Err(missing)
    else
      var found := FindUser(db.users, email.value);
      if found.None? then Err(UserNotFound) else Ok(found.value)
  }

  /** Behind the guard, a body naming the acting user's e-mail finds the
      acting user's own record once the required fields are there. */
  lemma ActorAccount(db: UserDb, actor: UserPrincipal, email: Option<string>, fieldsGiven: bool, missing: Failure)
    requires Inv(db) && Authenticated(db, Some(actor)) && email == Some(actor.email)
    requires fieldsGiven && actor.email != "" && missing != BadTokenOrEmail && missing != UserNotFound
    ensures AccountOf(db, Some(actor), email, fieldsGiven, missing) == Ok(actor.id)
  {
  }

  /** `updateUser`. */
  function UpdateUser(db: UserDb, actor: Option<UserPrincipal>, b: ProfileBody, mailed: bool): (s: Step<()>)
    requires UniqueEmails(db.users)
    ensures s.answer.Err? && s.answer.failure != ServerError ==> s.db == db
    ensures s.answer == Err(BadTokenOrEmail) <==> actor.None? || b.email != Some(actor.value.email)
    ensures AccountOf(db, actor, b.email, Given(b.email), EmailRequired).Err? ==>
      s == Step(db, Err(AccountOf(db, actor, b.email, Given(b.email), EmailRequired).failure))
    ensures AccountOf(db, actor, b.email, Given(b.email), EmailRequired).Ok? ==>
      var id := AccountOf(db, actor, b.email, Given(b.email), EmailRequired).value;
      var u := db.users[id];
      && (s.answer == Err(EmailNotVerified) <==> !u.isVerified)
      && (s.answer == Err(NoChanges) <==> u.isVerified && IsEmptyPatch(Changes(u, b)))
      && (u.isVerified && !IsEmptyPatch(Changes(u, b)) ==>
            && s.db == db.(users := db.users[id := ApplyPatch(u, Changes(u, b))])
            && s.answer == AfterMail((), mailed))
  {
    var account := AccountOf(db, actor, b.email, Given(b.email), EmailRequired);
    if account.Err? then Step(db, Err(account.failure))
    else
      var u := db.users[account.value];
      if !u.isVerified then Step(db, Err(EmailNotVerified))
      else
        var patch := Changes(u, b);
        if IsEmptyPatch(patch) then Step(db, Err(NoChanges))
        else Step(db.(users := db.users[account.value := ApplyPatch(u, patch)]), AfterMail((), mailed))
  }

  /** `updatePassword`: the new password is stored hashed. */
  function UpdatePassword(db: UserDb, actor: Option<UserPrincipal>, b: PasswordBody, salt: nat,
                          mailed: bool): (s: Step<()>)
    requires UniqueEmails(db.users)
    ensures s.answer.Err? && s.answer.failure != ServerError ==> s.db == db
    ensures s.answer == Err(BadTokenOrEmail) <==> actor.None? || b.email != Some(actor.value.email)
    ensures
      var fields := Given(b.email) && Given(b.currentPassword) && Given(b.newPassword);
      var account := AccountOf(db, actor, b.email, fields, PasswordFieldsRequired);
      && (account.Err? ==> s == Step(db, Err(account.failure)))
      && (account.Ok? ==>
            var u := db.users[account.value];
            && (s.answer == Err(IncorrectCurrentPassword) <==> !Matches(b.currentPassword.value, u.password))
            && (s.answer == Err(EmailNotVerified) <==> Matches(b.currentPassword.value, u.password) && !u.isVerified)
            && (Matches(b.currentPassword.value, u.password) && u.isVerified ==>
                  && s.db == db.(users := db.users[account.value := u.(password := Hash(b.newPassword.value, salt))])
                  && s.answer == AfterMail((), mailed)
                  && forall p {:trigger Matches(p, s.db.users[account.value].password)} ::
                       Matches(p, s.db.users[account.value].password) <==> p == b.newPassword.value))
  {
    var fields := Given(b.email) && Given(b.currentPassword) && Given(b.newPassword);
    var account := AccountOf(db, actor, b.email, fields, PasswordFieldsRequired);
    if account.Err? then Step(db, Err(account.failure))
    else
      var u := db.users[account.value];
      if !Matches(b.currentPassword.value, u.password) then Step(db, Err(IncorrectCurrentPassword))
      else if !u.isVerified then Step(db, Err(EmailNotVerified))
      else
        Step(db.(users := db.users[account.value := u.(password := Hash(b.newPassword.value, salt))]),
             AfterMail((), mailed))
  }

  /** `deleteAccount`: only the user record goes; nothing else refers to
      it. */
  function DeleteAccount(db: UserDb, actor: Option<UserPrincipal>, b: Credentials, mailed: bool): (s: Step<()>)
    requires UniqueEmails(db.users)
    ensures s.answer.Err? && s.answer.failure != ServerError ==> s.db == db
    ensures s.answer == Err(BadTokenOrEmail) <==> actor.None? || b.email != Some(actor.value.email)
    ensures
      var account := AccountOf(db, actor, b.email, Given(b.email) && Given(b.password), CredentialsRequired);
      && (account.Err? ==> s == Step(db, Err(account.failure)))
      && (account.Ok? ==>
            var u := db.users[account.value];
            && (s.answer == Err(IncorrectPassword) <==> !Matches(b.password.value, u.password))
            && (s.answer == Err(EmailNotVerified) <==> Matches(b.password.value, u.password) && !u.isVerified)
            && (Matches(b.password.value, u.password) && u.isVerified ==>
                  && s.db == db.(users := db.users - {account.value})
                  && s.answer == AfterMail((), mailed)))
  {
    var account := AccountOf(db, actor, b.email, Given(b.email) && Given(b.password), CredentialsRequired);
    if account.Err? then Step(db, Err(account.failure))
    else
      var u := db.users[account.value];
      if !Matches(b.password.value, u.password) then Step(db, Err(IncorrectPassword))
      else if !u.isVerified then Step(db, Err(EmailNotVerified))
      else Step(db.(users := db.users - {account.value}), AfterMail((), mailed))
  }
}
