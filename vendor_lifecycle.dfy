/** The vendor account life cycle across requests: the code mailed at
    registration verifies the account inside its window, after which the
    registered password logs in; a code is good once; a reissued code
    replaces the old one; a new password replaces the old one; closing an
    account touches no other vendor's records; and another vendor's
    records behave as missing. */
module VendorLifecycle {
  import opened Common
  import opened VendorRoutes
  import opened VendorSchema
  import opened VendorState
  import opened VendorAuth
  import opened VendorHandlers
  import opened VendorInvariant

  /** A pending account presented with a code it accepts is verified, and
      nothing but its record changes. */
  lemma VerifyPending(db: Db, id: Id, b: OtpBody, isEmail: string -> bool, now: Millis)
    requires Inv(db) && id in db.vendors && !db.vendors[id].isVerified
    requires db.vendors[id].email == NormalEmail(Text(b.email))
    requires VerifyOtpErrors(b, isEmail) == [] && OtpAccepts(db.vendors[id], Text(b.otp), now)
    ensures VerifyOtp(db, b, isEmail, now) == Step(db.(vendors := db.vendors[id := MarkVerified(db.vendors[id])]), Ok(()))
  {
    assert FindByEmail(db.vendors, NormalEmail(Text(b.email))) == Some(id);
    assert VendorWellFormed(db.vendors[id]);
  }

  /** A verified account logs in exactly with a password its record
      accepts, and any other is refused as incorrect. */
  lemma VerifiedLogsIn(db: Db, id: Id, b: Credentials, isEmail: string -> bool)
    requires UniqueEmails(db.vendors) && id in db.vendors && db.vendors[id].isVerified
    requires db.vendors[id].email == NormalEmail(Text(b.email)) && CredentialsErrors(b, isEmail) == []
    ensures Login(db, b, isEmail).Ok? <==> ComparePassword(db.vendors[id], Text(b.password))
    ensures Login(db, b, isEmail) == Err(IncorrectPassword) <==> !ComparePassword(db.vendors[id], Text(b.password))
  {
  }

  /** A registration that stores a vendor holds the mailed code; that code,
      sent back within ten minutes, verifies the account, and the
      registered password then logs in. */
  lemma RegisterThenVerify(db: Db, b: RegisterBody, isEmail: string -> bool, draw: nat, now: Millis, salt: nat,
                           mailed: bool, later: Millis)
    requires Inv(db) && Register(db, b, isEmail, draw, now, salt, mailed).db != db
    requires now <= later <= now + OtpWindow
    ensures var stored := Register(db, b, isEmail, draw, now, salt, mailed).db;
      && Inv(stored) && db.nextId in stored.vendors && !stored.vendors[db.nextId].isVerified
      && var verified := VerifyOtp(stored, OtpBody(b.email, Some(GenerateOtp(draw))), isEmail, later);
         && verified.answer.Ok? && Inv(verified.db)
         && Login(verified.db, Credentials(b.email, b.password), isEmail).Ok?
  {
    var otp := GenerateOtp(draw);
    var v := PreSave(RegisterDraft(b, otp, now), true, true, salt);
    var stored := Register(db, b, isEmail, draw, now, salt, mailed).db;
    assert stored == db.(vendors := db.vendors[db.nextId := v], nextId := db.nextId + 1);
    RegisterKeeps(db, b, isEmail, draw, now, salt, mailed);
    ExpiryWindow(now, later);
    assert OtpAccepts(v, otp, later);
    VerifyPending(stored, db.nextId, OtpBody(b.email, Some(otp)), isEmail, later);
    VerifyOtpKeeps(stored, OtpBody(b.email, Some(otp)), isEmail, later);
    var verified := VerifyOtp(stored, OtpBody(b.email, Some(otp)), isEmail, later);
    VerifiedLogsIn(verified.db, db.nextId, Credentials(b.email, b.password), isEmail);
  }

  /** A code is good once: the second time it is sent back, the account is
      already verified. */
  lemma VerifyTwiceRefused(db: Db, b: OtpBody, isEmail: string -> bool, now: Millis, later: Millis)
    requires Inv(db) && VerifyOtp(db, b, isEmail, now).answer.Ok?
    ensures VerifyOtp(VerifyOtp(db, b, isEmail, now).db, b, isEmail, later).answer == Err(AlreadyVerified)
  {
    var id := FindByEmail(db.vendors, NormalEmail(Text(b.email))).value;
    var after := VerifyOtp(db, b, isEmail, now).db;
    VerifyOtpKeeps(db, b, isEmail, now);
    assert after.vendors[id].email == NormalEmail(Text(b.email)) && after.vendors[id].isVerified;
  }

  /** After a resend, any other code, the previous one included, is refused
      as invalid. */
  lemma ResendInvalidatesOldCode(db: Db, email: Option<string>, isEmail: string -> bool, draw: nat, now: Millis,
                                 salt: nat, mailed: bool, previous: string, later: Millis)
    requires Inv(db) && ResendOtp(db, email, isEmail, draw, now, salt, mailed).db != db
    requires previous != "" && previous != GenerateOtp(draw)
    ensures VerifyOtp(ResendOtp(db, email, isEmail, draw, now, salt, mailed).db, OtpBody(email, Some(previous)),
                      isEmail, later).answer == Err(InvalidOrExpiredOtp)
  {
    var id := FindByEmail(db.vendors, NormalEmail(Text(email))).value;
    var v := Reissue(db.vendors[id], GenerateOtp(draw), now, salt);
    var after := ResendOtp(db, email, isEmail, draw, now, salt, mailed).db;
    assert after == db.(vendors := db.vendors[id := v]);
    ResendOtpKeeps(db, email, isEmail, draw, now, salt, mailed);
    assert after.vendors[id].email == NormalEmail(Text(email)) && !after.vendors[id].isVerified;
    assert !OtpAccepts(v, previous, later);
  }

  /** After a password change behind the guard, the new password logs in
      and any other, the old one included, is refused as incorrect. */
  lemma NewPasswordReplacesOld(db: Db, actor: VendorPrincipal, b: PasswordBody, isEmail: string -> bool,
                               salt: nat, mailed: bool, other: string)
    requires Inv(db) && Authenticated(db, Some(actor))
    requires UpdatePassword(db, Some(actor), b, isEmail, salt, mailed).db != db
    requires other != "" && other != Text(b.newPassword)
    ensures var after := UpdatePassword(db, Some(actor), b, isEmail, salt, mailed).db;
      && Inv(after)
      && Login(after, Credentials(b.email, b.newPassword), isEmail).Ok?
      && Login(after, Credentials(b.email, Some(other)), isEmail) == Err(IncorrectPassword)
  {
    ActorAccount(db, actor, b.email);
    var id := actor.id;
    var after := UpdatePassword(db, Some(actor), b, isEmail, salt, mailed).db;
    UpdatePasswordWrites(db, Some(actor), b, isEmail, salt, mailed);
    UpdatePasswordKeeps(db, Some(actor), b, isEmail, salt, mailed);
    assert after.vendors[id].email == NormalEmail(Text(b.email)) && after.vendors[id].isVerified;
    VerifiedLogsIn(after, id, Credentials(b.email, b.newPassword), isEmail);
    VerifiedLogsIn(after, id, Credentials(b.email, Some(other)), isEmail);
  }

  /** Closing an account removes the vendor and everything it owns, and
      leaves every other vendor and every record of another vendor as it
      was. */
  lemma DeleteRemovesOnlyTheAccount(db: Db, actor: VendorPrincipal, b: Credentials, isEmail: string -> bool,
                                    mailed: bool)
    requires Inv(db) && Authenticated(db, Some(actor))
    requires DeleteAccount(db, Some(actor), b, isEmail, mailed).db != db
    ensures var after := DeleteAccount(db, Some(actor), b, isEmail, mailed).db;
      && actor.id !in after.vendors
      && (forall id :: id in after.restaurants ==> after.restaurants[id].vendorId != actor.id)
      && (forall id :: id in after.items ==> after.items[id].vendorId != actor.id)
      && (forall id :: id in after.packages ==> after.packages[id].vendorId != actor.id)
      && (forall id :: id in db.vendors && id != actor.id ==> id in after.vendors && after.vendors[id] == db.vendors[id])
      && (forall id :: id in db.restaurants && db.restaurants[id].vendorId != actor.id ==>
            id in after.restaurants && after.restaurants[id] == db.restaurants[id])
      && (forall id :: id in db.items && db.items[id].vendorId != actor.id ==>
            id in after.items && after.items[id] == db.items[id])
      && (forall id :: id in db.packages && db.packages[id].vendorId != actor.id ==>
            id in after.packages && after.packages[id] == db.packages[id])
  {
    ActorAccount(db, actor, b.email);
    assert DeleteAccount(db, Some(actor), b, isEmail, mailed).db == WithoutAccount(db, actor.id);
    WithoutAccountRemovesOnly(db, actor.id);
  }

  /** The cascade removes the vendor and what it owns, and nothing else. */
  lemma WithoutAccountRemovesOnly(db: Db, vendorId: Id)
    ensures var after := WithoutAccount(db, vendorId);
      && vendorId !in after.vendors
      && (forall id :: id in after.restaurants ==> after.restaurants[id].vendorId != vendorId)
      && (forall id :: id in after.items ==> after.items[id].vendorId != vendorId)
      && (forall id :: id in after.packages ==> after.packages[id].vendorId != vendorId)
      && (forall id :: id in db.vendors && id != vendorId ==> id in after.vendors && after.vendors[id] == db.vendors[id])
      && (forall id :: id in db.restaurants && db.restaurants[id].vendorId != vendorId ==>
            id in after.restaurants && after.restaurants[id] == db.restaurants[id])
      && (forall id :: id in db.items && db.items[id].vendorId != vendorId ==>
            id in after.items && after.items[id] == db.items[id])
      && (forall id :: id in db.packages && db.packages[id].vendorId != vendorId ==>
            id in after.packages && after.packages[id] == db.packages[id])
  {
  }

  /** An item of another vendor behaves as missing: updating or deleting it
      answers "not found" and changes nothing. */
  lemma ForeignItemNotFound(db: Db, actor: VendorPrincipal, id: Id, b: ItemBody)
    requires ItemUpdateErrors(b) == []
    requires id in db.items && db.items[id].vendorId != actor.id
    ensures UpdateItem(db, Some(actor), Ref(id), b) == Step(db, Err(ItemNotFound))
    ensures DeleteItem(db, Some(actor), Ref(id)) == Step(db, Err(ItemNotFound))
  {
  }

  /** A package of another vendor behaves as missing in the same way. */
  lemma ForeignPackageNotFound(db: Db, actor: VendorPrincipal, id: Id, b: PackageBody)
    requires PackageUpdateErrors(b) == [] && b.items.None?
    requires id in db.packages && db.packages[id].vendorId != actor.id
    ensures UpdatePackage(db, Some(actor), Ref(id), b) == Step(db, Err(PackageNotFound))
    ensures DeletePackage(db, Some(actor), Ref(id)) == Step(db, Err(PackageNotFound))
  {
  }

  /** A package body that lists an item of another vendor is refused
      before anything is stored. */
  lemma ForeignItemInPackageRefused(db: Db, actor: VendorPrincipal, b: PackageBody, k: nat)
    requires PackageCreateErrors(b) == [] && AllRefs(b.items.value)
    requires k < |b.items.value| && b.items.value[k].id in db.items
    requires db.items[b.items.value[k].id].vendorId != actor.id
    ensures AddPackage(db, Some(actor), b) == Step(db, Err(ItemsNotAuthorized))
  {
    assert RefIds(b.items.value)[k] == b.items.value[k].id;
  }
}
