/** The handlers of the vendor controller (backend/controllers/vendorController.js)
    as functions of the database: each takes the collections before the
    request and gives the collections after it together with the answer.
    Their contracts classify every answer by the state it was given; the
    store in vendor_controller.dfy runs the same steps in place and is
    proved to agree with them. */
module VendorHandlers {
  import opened Common
  import opened Strings
  import opened Tokens
  import opened VendorRoutes
  import opened VendorSchema
  import opened VendorState
  import opened VendorAuth
  import I = ItemSchema
  import P = PackageSchema
  import R = RestaurantSchema

  /** The answers other than success. `Rejected` carries the
      `validationResult` errors; `ServerError` is the `catch` block's 500. */
  datatype Failure =
    | Rejected(errors: seq<FieldError>)
    | VendorExists
    | VendorNotFound
    | AlreadyVerified
    | InvalidOrExpiredOtp
    | IncorrectPassword
    | IncorrectCurrentPassword
    | EmailNotVerified
    | NoChanges
    | BadTokenOrEmail
    | NotLoggedIn
    | RestaurantExists
    | RestaurantNotFound
    | ItemNotFound
    | PackageNotFound
    | BadItemIdFormat
    | ItemsNotAuthorized
    | ServerError

  /** The status each failure is sent with. */
  function Status(f: Failure): (code: nat)
    ensures code in {400, 401, 404, 500}
    ensures code == 401 <==> f.BadTokenOrEmail? || f.NotLoggedIn?
    ensures code == 404 <==> f.RestaurantNotFound? || f.ItemNotFound? || f.PackageNotFound?
    ensures code == 500 <==> f.ServerError?
  {
    match f
    case BadTokenOrEmail | NotLoggedIn => 401
    case RestaurantNotFound | ItemNotFound | PackageNotFound => 404
    case ServerError => 500
    case _ => 400
  }

  datatype Outcome<+T> = Ok(value: T) | Err(failure: Failure)

  /** The database after a request, and the answer. */
  datatype Step<+T> = Step(db: Db, answer: Outcome<T>)

  /** The answer of a handler that mails the vendor after its database
      work: when sending throws, the `catch` answers 500 although the
      change is already stored. */
  function AfterMail<T>(value: T, mailed: bool): (r: Outcome<T>)
    ensures r.Ok? <==> mailed
    ensures r.Ok? ==> r.value == value
    ensures r.Err? ==> r.failure == ServerError
  {
    if mailed then Ok(value) else Err(ServerError)
  }

  /** `req.vendor` as the guard builds it: nothing, or a verified vendor as
      stored. */
  predicate Authenticated(db: Db, actor: Option<VendorPrincipal>)
  {
    actor.Some? ==>
      && actor.value.id in db.vendors && db.vendors[actor.value.id].isVerified
      && actor.value == VendorPrincipal(actor.value.id, db.vendors[actor.value.id].email, db.vendors[actor.value.id].name)
  }

  /** Whatever the guard lets through is an authenticated vendor. */
  lemma GuardAuthenticates(header: Option<string>, verify: string -> TokenCheck, db: Db)
    requires AuthenticateVendor(header, verify, db.vendors).Pass?
    ensures Authenticated(db, Some(AuthenticateVendor(header, verify, db.vendors).principal))
  {
  }

  // ---------------------------------------------------------------------
  // Account life cycle
  // ---------------------------------------------------------------------

  /** `new Vendor({ name, email, password, phoneNumber, address, otp,
      otpExpiry })` in `register`. */
  function RegisterDraft(b: RegisterBody, otp: string, now: Millis): Vendor
  {
    Draft(Text(b.name), Text(b.email), Text(b.password), Text(b.phoneNumber), Text(b.address),
          otp, OtpExpiry(now))
  }

  /** `bcrypt.compare(otp, vendor.otp)` succeeds and `vendor.otpExpiry <
      new Date()` does not hold. */
  predicate OtpAccepts(v: Vendor, code: string, now: Millis)
  {
    v.otp.Some? && SecretMatches(code, v.otp.value) && v.otpExpiry.Some? && !Expired(v.otpExpiry.value, now)
  }

  /** The document `verifyOTP` saves. */
  function MarkVerified(v: Vendor): (w: Vendor)
    ensures w.isVerified && w.otp.None? && w.otpExpiry.None?
    ensures w.(isVerified := v.isVerified, otp := v.otp, otpExpiry := v.otpExpiry) == v
  {
    v.(isVerified := true, otp := None, otpExpiry := None)
  }

  /** The document `resendOTP` hands to `save()`: a fresh code and
      expiry, not yet hashed. */
  function WithNewCode(v: Vendor, otp: string, now: Millis): Vendor
  {
    v.(otp := Some(Plain(otp)), otpExpiry := Some(OtpExpiry(now)))
  }

  /** What `resendOTP` stores: the code hashed by the hook. */
  function Reissue(v: Vendor, otp: string, now: Millis, salt: nat): Vendor
  {
    PreSave(WithNewCode(v, otp, now), false, true, salt)
  }

  /** `register`. The e-mail is looked up after the schema's setters, the
      draft is validated by `save()`, and the code is mailed last. */
  function Register(db: Db, b: RegisterBody, isEmail: string -> bool, draw: nat, now: Millis,
                    salt: nat, mailed: bool): (s: Step<string>)
    requires UniqueEmails(db.vendors)
    ensures s.answer == Err(Rejected(RegisterErrors(b, isEmail))) <==> RegisterErrors(b, isEmail) != []
    ensures s.answer == Err(VendorExists) <==>
      && RegisterErrors(b, isEmail) == []
      && exists id :: id in db.vendors && db.vendors[id].email == NormalEmail(Text(b.email))
    ensures
      if && RegisterErrors(b, isEmail) == []
         && (forall id :: id in db.vendors ==> db.vendors[id].email != NormalEmail(Text(b.email)))
         && SchemaValid(RegisterDraft(b, GenerateOtp(draw), now))
      then
        && s.db == db.(vendors := db.vendors[db.nextId := PreSave(RegisterDraft(b, GenerateOtp(draw), now), true, true, salt)],
                       nextId := db.nextId + 1)
        && s.answer == AfterMail(GenerateOtp(draw), mailed)
      else s.db == db && s.answer.Err?
  {
    var errors := RegisterErrors(b, isEmail);
    if errors != [] then Step(db, Err(Rejected(errors)))
    else if FindByEmail(db.vendors, NormalEmail(Text(b.email))).Some? then Step(db, Err(VendorExists))
    else
      var otp := GenerateOtp(draw);
      var doc := RegisterDraft(b, otp, now);
      if !SchemaValid(doc) then Step(db, Err(ServerError))
      else
        Step(db.(vendors := db.vendors[db.nextId := PreSave(doc, true, true, salt)], nextId := db.nextId + 1),
             AfterMail(otp, mailed))
  }

  /** `verifyOTP`. */
  function VerifyOtp(db: Db, b: OtpBody, isEmail: string -> bool, now: Millis): (s: Step<()>)
    requires UniqueEmails(db.vendors)
    ensures s.answer.Err? ==> s.db == db
    ensures s.answer == Err(Rejected(VerifyOtpErrors(b, isEmail))) <==> VerifyOtpErrors(b, isEmail) != []
    ensures s.answer == Err(VendorNotFound) <==>
      && VerifyOtpErrors(b, isEmail) == []
      && forall id :: id in db.vendors ==> db.vendors[id].email != NormalEmail(Text(b.email))
    ensures s.answer == Err(AlreadyVerified) <==>
      && VerifyOtpErrors(b, isEmail) == []
      && exists id :: id in db.vendors && db.vendors[id].email == NormalEmail(Text(b.email)) && db.vendors[id].isVerified
    ensures s.answer == Err(InvalidOrExpiredOtp) <==>
      && VerifyOtpErrors(b, isEmail) == []
      && exists id :: id in db.vendors && db.vendors[id].email == NormalEmail(Text(b.email))
                      && !db.vendors[id].isVerified && !OtpAccepts(db.vendors[id], Text(b.otp), now)
    ensures s.answer.Ok? <==>
      && VerifyOtpErrors(b, isEmail) == []
      && exists id :: id in db.vendors && db.vendors[id].email == NormalEmail(Text(b.email))
                      && !db.vendors[id].isVerified && OtpAccepts(db.vendors[id], Text(b.otp), now)
                      && SchemaValid(MarkVerified(db.vendors[id]))
    ensures s.answer.Ok? ==>
      var id := FindByEmail(db.vendors, NormalEmail(Text(b.email))).value;
      s.db == db.(vendors := db.vendors[id := MarkVerified(db.vendors[id])])
  {
    var errors := VerifyOtpErrors(b, isEmail);
    if errors != [] then Step(db, Err(Rejected(errors)))
    else
      var found := FindByEmail(db.vendors, NormalEmail(Text(b.email)));
      if found.None? then Step(db, Err(VendorNotFound))
      else
        var v := db.vendors[found.value];
        if v.isVerified then Step(db, Err(AlreadyVerified))
        else if !OtpAccepts(v, Text(b.otp), now) then Step(db, Err(InvalidOrExpiredOtp))
        else if !SchemaValid(MarkVerified(v)) then Step(db, Err(ServerError))
        else Step(db.(vendors := db.vendors[found.value := MarkVerified(v)]), Ok(()))
  }

  /** `resendOTP`. */
  function ResendOtp(db: Db, email: Option<string>, isEmail: string -> bool, draw: nat, now: Millis,
                     salt: nat, mailed: bool): (s: Step<string>)
    requires UniqueEmails(db.vendors)
    ensures s.answer == Err(Rejected(ResendOtpErrors(email, isEmail))) <==> ResendOtpErrors(email, isEmail) != []
    ensures s.answer == Err(VendorNotFound) <==>
      && ResendOtpErrors(email, isEmail) == []
      && forall id :: id in db.vendors ==> db.vendors[id].email != NormalEmail(Text(email))
    ensures s.answer == Err(AlreadyVerified) <==>
      && ResendOtpErrors(email, isEmail) == []
      && exists id :: id in db.vendors && db.vendors[id].email == NormalEmail(Text(email)) && db.vendors[id].isVerified
    ensures s.answer.Ok? ==> s.answer.value == GenerateOtp(draw)
    ensures
      var found := FindByEmail(db.vendors, NormalEmail(Text(email)));
      if ResendOtpErrors(email, isEmail) == [] && found.Some? && !db.vendors[found.value].isVerified
         && SchemaValid(WithNewCode(db.vendors[found.value], GenerateOtp(draw), now))
      then s.db == db.(vendors := db.vendors[found.value := Reissue(db.vendors[found.value], GenerateOtp(draw), now, salt)])
           && s.answer == AfterMail(GenerateOtp(draw), mailed)
      else s.db == db && s.answer.Err?
  {
    var errors := ResendOtpErrors(email, isEmail);
    if errors != [] then Step(db, Err(Rejected(errors)))
    else
      var found := FindByEmail(db.vendors, NormalEmail(Text(email)));
      if found.None? then Step(db, Err(VendorNotFound))
      else
        var v := db.vendors[found.value];
        if v.isVerified then Step(db, Err(AlreadyVerified))
        else
          var otp := GenerateOtp(draw);
          if !SchemaValid(WithNewCode(v, otp, now)) then Step(db, Err(ServerError))
          else Step(db.(vendors := db.vendors[found.value := Reissue(v, otp, now, salt)]), AfterMail(otp, mailed))
  }

  /** `login`: the claims it signs, or why it refuses. The password is
      checked before the verification state, so only a caller who knows
      the password learns that the account is unverified. */
  function Login(db: Db, b: Credentials, isEmail: string -> bool): (r: Outcome<Claims>)
    requires UniqueEmails(db.vendors)
    ensures r.Ok? <==>
      && CredentialsErrors(b, isEmail) == []
      && exists id :: id in db.vendors && db.vendors[id].email == NormalEmail(Text(b.email))
                      && ComparePassword(db.vendors[id], Text(b.password)) && db.vendors[id].isVerified
    ensures r.Ok? ==>
      && r.value.VendorClaims?
      && r.value.vendorId in db.vendors
      && r.value.email == db.vendors[r.value.vendorId].email == NormalEmail(Text(b.email))
      && r.value.name == db.vendors[r.value.vendorId].name
    ensures r == Err(EmailNotVerified) <==>
      && CredentialsErrors(b, isEmail) == []
      && exists id :: id in db.vendors && db.vendors[id].email == NormalEmail(Text(b.email))
                      && ComparePassword(db.vendors[id], Text(b.password)) && !db.vendors[id].isVerified
    ensures r == Err(IncorrectPassword) <==>
      && CredentialsErrors(b, isEmail) == []
      && exists id :: id in db.vendors && db.vendors[id].email == NormalEmail(Text(b.email))
                      && !ComparePassword(db.vendors[id], Text(b.password))
  {
    var errors := CredentialsErrors(b, isEmail);
    if errors != [] then Err(Rejected(errors))
    else
      var found := FindByEmail(db.vendors, NormalEmail(Text(b.email)));
      if found.None? then Err(VendorNotFound)
      else
        var v := db.vendors[found.value];
        if !ComparePassword(v, Text(b.password)) then Err(IncorrectPassword)
        else if !v.isVerified then Err(EmailNotVerified)
        else Ok(VendorClaims(found.value, v.email, v.name))
  }

  /** The checks `updateVendor`, `updatePassword` and `deleteAccount`
      share after validation: a logged-in vendor whose e-mail is the
      body's, then the record that e-mail finds. */
  function AccountOf(db: Db, actor: Option<VendorPrincipal>, email: Option<string>): (g: Outcome<Id>)
    requires UniqueEmails(db.vendors)
    ensures g == Err(BadTokenOrEmail) <==> actor.None? || actor.value.email != Text(email)
    ensures g == Err(VendorNotFound) <==>
      && actor.Some? && actor.value.email == Text(email)
      && forall id :: id in db.vendors ==> db.vendors[id].email != NormalEmail(Text(email))
    ensures g.Ok? ==> g.value in db.vendors && db.vendors[g.value].email == NormalEmail(Text(email))
  {
    if actor.None? || actor.value.email != Text(email) then Err(BadTokenOrEmail)
    else
      var found := FindByEmail(db.vendors, NormalEmail(Text(email)));
      if found.None? then Err(VendorNotFound) else Ok(found.value)
  }

  /** Behind the guard, a body naming the acting vendor's e-mail finds the
      acting vendor's own record: "Vendor not found" cannot be answered
      there. */
  lemma ActorAccount(db: Db, actor: VendorPrincipal, email: Option<string>)
    requires Inv(db) && Authenticated(db, Some(actor)) && actor.email == Text(email)
    ensures AccountOf(db, Some(actor), email) == Ok(actor.id)
  {
    assert VendorWellFormed(db.vendors[actor.id]);
    NormalOfNormal(actor.email);
  }

  /** `updateVendor`. The patch is written by `updateOne`, which runs the
      setters and no validator. */
  function UpdateVendor(db: Db, actor: Option<VendorPrincipal>, b: ProfileBody, isEmail: string -> bool,
                        mailed: bool): (s: Step<()>)
    requires UniqueEmails(db.vendors)
    ensures s.answer == Err(Rejected(ProfileErrors(b, isEmail))) <==> ProfileErrors(b, isEmail) != []
    ensures ProfileErrors(b, isEmail) == [] && AccountOf(db, actor, b.email).Err? ==>
      s == Step(db, Err(AccountOf(db, actor, b.email).failure))
    ensures ProfileErrors(b, isEmail) == [] && AccountOf(db, actor, b.email).Ok? ==>
      var id := AccountOf(db, actor, b.email).value;
      var v := db.vendors[id];
      && (s.answer == Err(IncorrectPassword) <==> !ComparePassword(v, Text(b.password)))
      && (s.answer == Err(NoChanges) <==> ComparePassword(v, Text(b.password)) && IsEmptyPatch(Changes(v, b)))
      && (ComparePassword(v, Text(b.password)) && !IsEmptyPatch(Changes(v, b)) ==>
            s == Step(db.(vendors := db.vendors[id := ApplyPatch(v, Changes(v, b))]), AfterMail((), mailed)))
    ensures s.answer.Ok? ==> mailed
  {
    var errors := ProfileErrors(b, isEmail);
    if errors != [] then Step(db, Err(Rejected(errors)))
    else
      var account := AccountOf(db, actor, b.email);
      if account.Err? then Step(db, Err(account.failure))
      else
        var v := db.vendors[account.value];
        if !ComparePassword(v, Text(b.password)) then Step(db, Err(IncorrectPassword))
        else
          var patch := Changes(v, b);
          if IsEmptyPatch(patch) then Step(db, Err(NoChanges))
          else Step(db.(vendors := db.vendors[account.value := ApplyPatch(v, patch)]), AfterMail((), mailed))
  }

  /** The document `updatePassword` hands to `save()`. */
  function WithNewPassword(v: Vendor, b: PasswordBody): Vendor
  {
    v.(password := Plain(Text(b.newPassword)))
  }

  /** `updatePassword`. `save()` validates the whole document again,
      including fields a profile update wrote without validation. */
  function UpdatePassword(db: Db, actor: Option<VendorPrincipal>, b: PasswordBody, isEmail: string -> bool,
                          salt: nat, mailed: bool): (s: Step<()>)
    requires UniqueEmails(db.vendors)
    ensures s.answer == Err(Rejected(PasswordErrors(b, isEmail))) <==> PasswordErrors(b, isEmail) != []
    ensures PasswordErrors(b, isEmail) == [] && AccountOf(db, actor, b.email).Err? ==>
      s == Step(db, Err(AccountOf(db, actor, b.email).failure))
    ensures PasswordErrors(b, isEmail) == [] && AccountOf(db, actor, b.email).Ok? ==>
      var id := AccountOf(db, actor, b.email).value;
      var v := db.vendors[id];
      && (s.answer == Err(IncorrectCurrentPassword) <==> !ComparePassword(v, Text(b.currentPassword)))
      && (ComparePassword(v, Text(b.currentPassword)) && !SchemaValid(WithNewPassword(v, b)) ==>
            s == Step(db, Err(ServerError)))
      && (ComparePassword(v, Text(b.currentPassword)) && SchemaValid(WithNewPassword(v, b)) ==>
            && s.db == db.(vendors := db.vendors[id := PreSave(WithNewPassword(v, b), true, false, salt)])
            && s.answer == AfterMail((), mailed)
            && forall p {:trigger ComparePassword(s.db.vendors[id], p)} ::
                 ComparePassword(s.db.vendors[id], p) <==> p == Text(b.newPassword))
  {
    var errors := PasswordErrors(b, isEmail);
    if errors != [] then Step(db, Err(Rejected(errors)))
    else
      var account := AccountOf(db, actor, b.email);
      if account.Err? then Step(db, Err(account.failure))
      else
        var v := db.vendors[account.value];
        if !ComparePassword(v, Text(b.currentPassword)) then Step(db, Err(IncorrectCurrentPassword))
        else
          var doc := WithNewPassword(v, b);
          if !SchemaValid(doc) then Step(db, Err(ServerError))
          else Step(db.(vendors := db.vendors[account.value := PreSave(doc, true, false, salt)]), AfterMail((), mailed))
  }

  /** `deleteAccount`: the restaurant, then the items, then the packages,
      then the vendor. */
  function DeleteAccount(db: Db, actor: Option<VendorPrincipal>, b: Credentials, isEmail: string -> bool,
                         mailed: bool): (s: Step<()>)
    requires UniqueEmails(db.vendors) && OneRestaurantPerVendor(db.restaurants)
    ensures s.answer == Err(Rejected(CredentialsErrors(b, isEmail))) <==> CredentialsErrors(b, isEmail) != []
    ensures CredentialsErrors(b, isEmail) == [] && AccountOf(db, actor, b.email).Err? ==>
      s == Step(db, Err(AccountOf(db, actor, b.email).failure))
    ensures CredentialsErrors(b, isEmail) == [] && AccountOf(db, actor, b.email).Ok? ==>
      var id := AccountOf(db, actor, b.email).value;
      && (s.answer == Err(IncorrectPassword) <==> !ComparePassword(db.vendors[id], Text(b.password)))
      && (!ComparePassword(db.vendors[id], Text(b.password)) ==> s.db == db)
      && (ComparePassword(db.vendors[id], Text(b.password)) ==>
            && s.db == WithoutAccount(db, id)
            && s.answer == AfterMail((), mailed))
  {
    var errors := CredentialsErrors(b, isEmail);
    if errors != [] then Step(db, Err(Rejected(errors)))
    else
      var account := AccountOf(db, actor, b.email);
      if account.Err? then Step(db, Err(account.failure))
      else
        var id := account.value;
        if !ComparePassword(db.vendors[id], Text(b.password)) then Step(db, Err(IncorrectPassword))
        else
          Step(WithoutAccount(db, id), AfterMail((), mailed))
  }

  /** `dashboard`: the greeting names the vendor the guard loaded; without
      one, reading `req.vendor.name` throws. */
  function Dashboard(actor: Option<VendorPrincipal>): (r: Outcome<string>)
    ensures r.Ok? <==> actor.Some?
    ensures r.Err? ==> r.failure == ServerError
    ensures r.Ok? ==>
      && |r.value| >= |actor.value.name|
      && r.value[|r.value| - |actor.value.name|..] == actor.value.name
      && r.value[..|r.value| - |actor.value.name|] == "Welcome to the vendor dashboard, "
  {
    if actor.None? then Err(ServerError) else Ok("Welcome to the vendor dashboard, " + actor.value.name)
  }

  // ---------------------------------------------------------------------
  // Restaurant
  // ---------------------------------------------------------------------

  /** `addRestaurant`. */
  function AddRestaurant(db: Db, actor: Option<VendorPrincipal>, b: RestaurantBody): (s: Step<Id>)
    requires OneRestaurantPerVendor(db.restaurants)
    ensures s.answer.Err? ==> s.db == db
    ensures s.answer == Err(Rejected(RestaurantCreateErrors(b))) <==> RestaurantCreateErrors(b) != []
    ensures s.answer == Err(NotLoggedIn) <==> RestaurantCreateErrors(b) == [] && actor.None?
    ensures s.answer == Err(RestaurantExists) <==>
      && RestaurantCreateErrors(b) == [] && actor.Some?
      && exists id :: id in db.restaurants && db.restaurants[id].vendorId == actor.value.id
    ensures s.answer.Ok? <==>
      && RestaurantCreateErrors(b) == [] && actor.Some?
      && (forall id :: id in db.restaurants ==> db.restaurants[id].vendorId != actor.value.id)
      && R.SchemaValid(R.NewRestaurant(actor.value.id, b))
    ensures s.answer.Ok? ==>
      && s.answer.value == db.nextId
      && s.db == db.(restaurants := db.restaurants[db.nextId := R.NewRestaurant(actor.value.id, b)],
                     nextId := db.nextId + 1)
  {
    var errors := RestaurantCreateErrors(b);
    if errors != [] then Step(db, Err(Rejected(errors)))
    else if actor.None? then Step(db, Err(NotLoggedIn))
    else if RestaurantOf(db.restaurants, actor.value.id).Some? then Step(db, Err(RestaurantExists))
    else
      var restaurant := R.NewRestaurant(actor.value.id, b);
      if !R.SchemaValid(restaurant) then Step(db, Err(ServerError))
      else Step(db.(restaurants := db.restaurants[db.nextId := restaurant], nextId := db.nextId + 1), Ok(db.nextId))
  }

  /** `getRestaurant`. */
  function GetRestaurant(db: Db, actor: Option<VendorPrincipal>): (r: Outcome<R.Restaurant>)
    requires OneRestaurantPerVendor(db.restaurants)
    ensures r == Err(NotLoggedIn) <==> actor.None?
    ensures r == Err(RestaurantNotFound) <==>
      actor.Some? && forall id :: id in db.restaurants ==> db.restaurants[id].vendorId != actor.value.id
    ensures r.Ok? ==> r.value in db.restaurants.Values && r.value.vendorId == actor.value.id
  {
    if actor.None? then Err(NotLoggedIn)
    else
      var found := RestaurantOf(db.restaurants, actor.value.id);
      if found.None? then Err(RestaurantNotFound) else Ok(db.restaurants[found.value])
  }

  /** `updateRestaurant` finds the restaurant by its owner alone; the
      `:id` of the path is never read. */
  function UpdateRestaurant(db: Db, actor: Option<VendorPrincipal>, b: RestaurantBody): (s: Step<R.Restaurant>)
    requires OneRestaurantPerVendor(db.restaurants)
    ensures s.answer.Err? ==> s.db == db
    ensures s.answer == Err(Rejected(RestaurantUpdateErrors(b))) <==> RestaurantUpdateErrors(b) != []
    ensures s.answer == Err(NotLoggedIn) <==> RestaurantUpdateErrors(b) == [] && actor.None?
    ensures s.answer == Err(RestaurantNotFound) <==>
      && RestaurantUpdateErrors(b) == [] && actor.Some?
      && forall id :: id in db.restaurants ==> db.restaurants[id].vendorId != actor.value.id
    ensures s.answer.Ok? ==>
      var id := RestaurantOf(db.restaurants, actor.value.id).value;
      && s.db == db.(restaurants := db.restaurants[id := R.ApplyUpdate(db.restaurants[id], b)])
      && s.answer.value == s.db.restaurants[id]
      && s.answer.value.vendorId == actor.value.id
  {
    var errors := RestaurantUpdateErrors(b);
    if errors != [] then Step(db, Err(Rejected(errors)))
    else if actor.None? then Step(db, Err(NotLoggedIn))
    else
      var found := RestaurantOf(db.restaurants, actor.value.id);
      if found.None? then Step(db, Err(RestaurantNotFound))
      else
        var restaurant := R.ApplyUpdate(db.restaurants[found.value], b);
        Step(db.(restaurants := db.restaurants[found.value := restaurant]), Ok(restaurant))
  }

  /** `deleteRestaurant`. */
  function DeleteRestaurant(db: Db, actor: Option<VendorPrincipal>): (s: Step<()>)
    requires OneRestaurantPerVendor(db.restaurants)
    ensures s.answer.Err? ==> s.db == db
    ensures s.answer == Err(NotLoggedIn) <==> actor.None?
    ensures s.answer.Ok? <==>
      actor.Some? && exists id :: id in db.restaurants && db.restaurants[id].vendorId == actor.value.id
    ensures s.answer.Ok? ==>
      s.db == db.(restaurants := db.restaurants - RestaurantIdsOf(db.restaurants, actor.value.id))
  {
    if actor.None? then Step(db, Err(NotLoggedIn))
    else
      var found := RestaurantOf(db.restaurants, actor.value.id);
      OnlyRestaurant(db.restaurants, actor.value.id);
      if found.None? then Step(db, Err(RestaurantNotFound))
      else Step(db.(restaurants := db.restaurants - {found.value}), Ok(()))
  }

  // ---------------------------------------------------------------------
  // Items
  // ---------------------------------------------------------------------

  /** `addItem`. */
  function AddItem(db: Db, actor: Option<VendorPrincipal>, b: ItemBody): (s: Step<Id>)
    ensures s.answer.Err? ==> s.db == db
    ensures s.answer == Err(Rejected(ItemCreateErrors(b))) <==> ItemCreateErrors(b) != []
    ensures s.answer == Err(NotLoggedIn) <==> ItemCreateErrors(b) == [] && actor.None?
    ensures s.answer.Ok? <==>
      ItemCreateErrors(b) == [] && actor.Some? && I.SchemaValid(I.NewItem(actor.value.id, b))
    ensures s.answer.Ok? ==>
      && s.answer.value == db.nextId
      && s.db == db.(items := db.items[db.nextId := I.NewItem(actor.value.id, b)], nextId := db.nextId + 1)
  {
    var errors := ItemCreateErrors(b);
    if errors != [] then Step(db, Err(Rejected(errors)))
    else if actor.None? then Step(db, Err(NotLoggedIn))
    else
      var item := I.NewItem(actor.value.id, b);
      if !I.SchemaValid(item) then Step(db, Err(ServerError))
      else Step(db.(items := db.items[db.nextId := item], nextId := db.nextId + 1), Ok(db.nextId))
  }

  /** `getItems`. */
  function GetItems(db: Db, actor: Option<VendorPrincipal>): (r: Outcome<map<Id, I.Item>>)
    ensures r.Err? <==> actor.None?
    ensures r.Err? ==> r.failure == NotLoggedIn
    ensures r.Ok? ==> forall id :: id in r.value <==> id in db.items && db.items[id].vendorId == actor.value.id
    ensures r.Ok? ==> forall id :: id in r.value ==> r.value[id] == db.items[id]
  {
    if actor.None? then Err(NotLoggedIn) else Ok(ItemsOf(db.items, actor.value.id))
  }

  /** `updateItem`: the filter matches on the id and the owner together,
      and a malformed path id makes the query throw a cast error. */
  function UpdateItem(db: Db, actor: Option<VendorPrincipal>, itemId: ItemRef, b: ItemBody): (s: Step<I.Item>)
    ensures s.answer.Err? ==> s.db == db
    ensures s.answer == Err(Rejected(ItemUpdateErrors(b))) <==> ItemUpdateErrors(b) != []
    ensures s.answer == Err(NotLoggedIn) <==> ItemUpdateErrors(b) == [] && actor.None?
    ensures s.answer == Err(ServerError) <==> ItemUpdateErrors(b) == [] && actor.Some? && itemId.Malformed?
    ensures s.answer.Ok? <==>
      && ItemUpdateErrors(b) == [] && actor.Some? && itemId.Ref?
      && itemId.id in db.items && db.items[itemId.id].vendorId == actor.value.id
    ensures s.answer.Ok? ==>
      && s.db == db.(items := db.items[itemId.id := I.ApplyUpdate(db.items[itemId.id], b)])
      && s.answer.value == s.db.items[itemId.id]
  {
    var errors := ItemUpdateErrors(b);
    if errors != [] then Step(db, Err(Rejected(errors)))
    else if actor.None? then Step(db, Err(NotLoggedIn))
    else if itemId.Malformed? then Step(db, Err(ServerError))
    else if itemId.id !in db.items || db.items[itemId.id].vendorId != actor.value.id then Step(db, Err(ItemNotFound))
    else
      var item := I.ApplyUpdate(db.items[itemId.id], b);
      Step(db.(items := db.items[itemId.id := item]), Ok(item))
  }

  /** `deleteItem`, matched on the id and the owner. Packages that list
      the item keep its id. */
  function DeleteItem(db: Db, actor: Option<VendorPrincipal>, itemId: ItemRef): (s: Step<()>)
    ensures s.answer.Err? ==> s.db == db
    ensures s.answer == Err(NotLoggedIn) <==> actor.None?
    ensures s.answer == Err(ServerError) <==> actor.Some? && itemId.Malformed?
    ensures s.answer.Ok? <==>
      actor.Some? && itemId.Ref? && itemId.id in db.items && db.items[itemId.id].vendorId == actor.value.id
    ensures s.answer.Ok? ==> s.db == db.(items := db.items - {itemId.id})
  {
    if actor.None? then Step(db, Err(NotLoggedIn))
    else if itemId.Malformed? then Step(db, Err(ServerError))
    else if itemId.id !in db.items || db.items[itemId.id].vendorId != actor.value.id then Step(db, Err(ItemNotFound))
    else Step(db.(items := db.items - {itemId.id}), Ok(()))
  }

  /** `searchItems` behind its route validator, up to the text match,
      which is MongoDB's: `matches` stands for it. A `$text` query needs a
      text index on the items collection, which `Item.js` does not declare;
      `textIndex` says whether one exists, and without it the query throws
      and the answer is 500. */
  function SearchItems(db: Db, actor: Option<VendorPrincipal>, query: Option<string>, textIndex: bool,
                       matches: (string, I.Item) -> bool): (r: Outcome<map<Id, I.Item>>)
    ensures r == Err(Rejected(SearchErrors(query))) <==> SearchErrors(query) != []
    ensures r == Err(NotLoggedIn) <==> SearchErrors(query) == [] && actor.None?
    ensures r == Err(ServerError) <==> SearchErrors(query) == [] && actor.Some? && !textIndex
    ensures r.Ok? <==> SearchErrors(query) == [] && actor.Some? && textIndex
    ensures r.Ok? ==> forall id :: id in r.value <==>
      id in db.items && db.items[id].vendorId == actor.value.id && matches(query.value, db.items[id])
    ensures r.Ok? ==> forall id :: id in r.value ==> r.value[id] == db.items[id]
  {
    var errors := SearchErrors(query);
    if errors != [] then Err(Rejected(errors))
    else if actor.None? then Err(NotLoggedIn)
    else if !textIndex then Err(ServerError)
    else Ok(map id | id in db.items && db.items[id].vendorId == actor.value.id && matches(query.value, db.items[id]) :: db.items[id])
  }

  // ---------------------------------------------------------------------
  // Breakfast packages
  // ---------------------------------------------------------------------

  /** An `items` list in which every entry is a well-formed ObjectId. */
  predicate AllRefs(refs: seq<ItemRef>)
  {
    forall k :: 0 <= k < |refs| ==> refs[k].Ref?
  }

  function RefIds(refs: seq<ItemRef>): (ids: seq<Id>)
    requires AllRefs(refs)
    ensures |ids| == |refs| && forall k :: 0 <= k < |refs| ==> ids[k] == refs[k].id
  {
    seq(|refs|, k requires 0 <= k < |refs| && AllRefs(refs) => refs[k].id)
  }

  /** The ownership test `validItems.length !== items.length`, passed. */
  predicate ItemsAuthorized(db: Db, vendorId: Id, ids: seq<Id>)
  {
    |OwnedAmong(db.items, vendorId, ids)| == |ids|
  }

  /** `addBreakfastPackage`. */
  function AddPackage(db: Db, actor: Option<VendorPrincipal>, b: PackageBody): (s: Step<Id>)
    ensures s.answer.Err? ==> s.db == db
    ensures s.answer == Err(Rejected(PackageCreateErrors(b))) <==> PackageCreateErrors(b) != []
    ensures s.answer == Err(NotLoggedIn) <==> PackageCreateErrors(b) == [] && actor.None?
    ensures s.answer == Err(BadItemIdFormat) <==> PackageCreateErrors(b) == [] && actor.Some? && !AllRefs(b.items.value)
    ensures s.answer == Err(ItemsNotAuthorized) <==>
      && PackageCreateErrors(b) == [] && actor.Some? && AllRefs(b.items.value)
      && !(AllOwned(db.items, actor.value.id, RefIds(b.items.value)) && Distinct(RefIds(b.items.value)))
    ensures s.answer.Ok? <==>
      && PackageCreateErrors(b) == [] && actor.Some? && AllRefs(b.items.value)
      && AllOwned(db.items, actor.value.id, RefIds(b.items.value)) && Distinct(RefIds(b.items.value))
      && P.SchemaValid(P.NewPackage(actor.value.id, b, RefIds(b.items.value)))
    ensures s.answer.Ok? ==>
      && s.answer.value == db.nextId
      && s.db == db.(packages := db.packages[db.nextId := P.NewPackage(actor.value.id, b, RefIds(b.items.value))],
                     nextId := db.nextId + 1)
  {
    var errors := PackageCreateErrors(b);
    if errors != [] then Step(db, Err(Rejected(errors)))
    else if actor.None? then Step(db, Err(NotLoggedIn))
    else if !AllRefs(b.items.value) then Step(db, Err(BadItemIdFormat))
    else
      var ids := RefIds(b.items.value);
      OwnershipCount(db.items, actor.value.id, ids);
      if !ItemsAuthorized(db, actor.value.id, ids) then Step(db, Err(ItemsNotAuthorized))
      else
        var package := P.NewPackage(actor.value.id, b, ids);
        if !P.SchemaValid(package) then Step(db, Err(ServerError))
        else Step(db.(packages := db.packages[db.nextId := package], nextId := db.nextId + 1), Ok(db.nextId))
  }

  /** A package as `getBreakfastPackages` lists it, its items populated. */
  datatype Listing = Listing(package: P.Package, shown: seq<I.Item>)

  /** `getBreakfastPackages`: the vendor's packages with their items
      populated; with sound packages only the vendor's own items show. */
  function GetPackages(db: Db, actor: Option<VendorPrincipal>): (r: Outcome<map<Id, Listing>>)
    requires PackagesSound(db.items, db.packages)
    ensures r.Err? <==> actor.None?
    ensures r.Err? ==> r.failure == NotLoggedIn
    ensures r.Ok? ==> forall id :: id in r.value <==> id in db.packages && db.packages[id].vendorId == actor.value.id
    ensures r.Ok? ==> forall id :: id in r.value ==>
      && r.value[id].package == db.packages[id]
      && r.value[id].shown == Populate(db.items, db.packages[id].items)
      && forall k :: 0 <= k < |r.value[id].shown| ==> r.value[id].shown[k].vendorId == actor.value.id
  {
    if actor.None? then Err(NotLoggedIn)
    else
      var vid := actor.value.id;
      var listing := map id | id in db.packages && db.packages[id].vendorId == vid ::
        Listing(db.packages[id], Populate(db.items, db.packages[id].items));
      assert forall id :: id in listing ==> forall k :: 0 <= k < |listing[id].shown| ==> listing[id].shown[k].vendorId == vid by {
        forall id | id in listing {
          PopulateOwned(db.items, vid, db.packages[id].items);
        }
      }
      Ok(listing)
  }

  /** The `items` check of `updateBreakfastPackage` lets the request on:
      no list was given, or every entry is a well-formed id of a distinct
      item the vendor owns. */
  predicate ItemListAccepted(items: map<Id, I.Item>, vendorId: Id, list: Option<seq<ItemRef>>)
  {
    list.Some? ==> AllRefs(list.value) && AllOwned(items, vendorId, RefIds(list.value)) && Distinct(RefIds(list.value))
  }

  /** `updateBreakfastPackage`. The ownership check on `items`, when they
      are given, comes first and does not test the ids' format: a
      malformed id makes the query throw. */
  function UpdatePackage(db: Db, actor: Option<VendorPrincipal>, packageId: ItemRef, b: PackageBody): (s: Step<P.Package>)
    ensures s.answer.Err? ==> s.db == db
    ensures s.answer == Err(Rejected(PackageUpdateErrors(b))) <==> PackageUpdateErrors(b) != []
    ensures s.answer == Err(NotLoggedIn) <==> PackageUpdateErrors(b) == [] && actor.None?
    ensures s.answer == Err(ItemsNotAuthorized) <==>
      && PackageUpdateErrors(b) == [] && actor.Some? && b.items.Some? && AllRefs(b.items.value)
      && !(AllOwned(db.items, actor.value.id, RefIds(b.items.value)) && Distinct(RefIds(b.items.value)))
    ensures s.answer == Err(ServerError) <==>
      && PackageUpdateErrors(b) == [] && actor.Some?
      && ((b.items.Some? && !AllRefs(b.items.value))
          || (ItemListAccepted(db.items, actor.value.id, b.items) && packageId.Malformed?))
    ensures s.answer == Err(PackageNotFound) <==>
      && PackageUpdateErrors(b) == [] && actor.Some? && ItemListAccepted(db.items, actor.value.id, b.items)
      && packageId.Ref? && (packageId.id !in db.packages || db.packages[packageId.id].vendorId != actor.value.id)
    ensures s.answer.Ok? <==>
      && PackageUpdateErrors(b) == [] && actor.Some?
      && (b.items.Some? ==> AllRefs(b.items.value) && AllOwned(db.items, actor.value.id, RefIds(b.items.value))
                            && Distinct(RefIds(b.items.value)))
      && packageId.Ref? && packageId.id in db.packages && db.packages[packageId.id].vendorId == actor.value.id
    ensures s.answer.Ok? ==>
      var ids := if b.items.Some? then Some(RefIds(b.items.value)) else None;
      && s.db == db.(packages := db.packages[packageId.id := P.ApplyUpdate(db.packages[packageId.id], b, ids)])
      && s.answer.value == s.db.packages[packageId.id]
  {
    var errors := PackageUpdateErrors(b);
    if errors != [] then Step(db, Err(Rejected(errors)))
    else if actor.None? then Step(db, Err(NotLoggedIn))
    else if b.items.Some? && !AllRefs(b.items.value) then Step(db, Err(ServerError))
    else
      var ids := if b.items.Some? then Some(RefIds(b.items.value)) else None;
      if ids.Some? && (OwnershipCount(db.items, actor.value.id, ids.value); !ItemsAuthorized(db, actor.value.id, ids.value))
      then Step(db, Err(ItemsNotAuthorized))
      else if packageId.Malformed? then Step(db, Err(ServerError))
      else if packageId.id !in db.packages || db.packages[packageId.id].vendorId != actor.value.id
      then Step(db, Err(PackageNotFound))
      else
        var package := P.ApplyUpdate(db.packages[packageId.id], b, ids);
        Step(db.(packages := db.packages[packageId.id := package]), Ok(package))
  }

  /** `deleteBreakfastPackage`, matched on the id and the owner. */
  function DeletePackage(db: Db, actor: Option<VendorPrincipal>, packageId: ItemRef): (s: Step<()>)
    ensures s.answer.Err? ==> s.db == db
    ensures s.answer == Err(NotLoggedIn) <==> actor.None?
    ensures s.answer == Err(ServerError) <==> actor.Some? && packageId.Malformed?
    ensures s.answer.Ok? <==>
      && actor.Some? && packageId.Ref? && packageId.id in db.packages
      && db.packages[packageId.id].vendorId == actor.value.id
    ensures s.answer.Ok? ==> s.db == db.(packages := db.packages - {packageId.id})
  {
    if actor.None? then Step(db, Err(NotLoggedIn))
    else if packageId.Malformed? then Step(db, Err(ServerError))
    else if packageId.id !in db.packages || db.packages[packageId.id].vendorId != actor.value.id
    then Step(db, Err(PackageNotFound))
    else Step(db.(packages := db.packages - {packageId.id}), Ok(()))
  }
}
