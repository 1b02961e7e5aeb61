/** The database invariant `Inv` survives every vendor handler: first for
    each kind of write the handlers perform, then for each handler. The
    unique indexes, the ownership of every record by a verified vendor and
    the soundness of package item lists are therefore facts about every
    state the vendor API can reach. */
module VendorInvariant {
  import opened Common
  import opened Strings
  import opened VendorRoutes
  import opened VendorSchema
  import opened VendorState
  import opened VendorAuth
  import opened VendorHandlers
  import I = ItemSchema
  import P = PackageSchema
  import R = RestaurantSchema

  // ---------------------------------------------------------------------
  // Parts of the invariant
  // ---------------------------------------------------------------------

  /** Every entry of `small` is an entry of `large`. */
  predicate SubMap<V(==)>(small: map<Id, V>, large: map<Id, V>)
  {
    forall k :: k in small ==> k in large && small[k] == large[k]
  }

  /** `small` keeps some of the records of `large`, unchanged, and the
      same counter. */
  predicate Within(small: Db, large: Db)
  {
    && SubMap(small.vendors, large.vendors) && SubMap(small.restaurants, large.restaurants)
    && SubMap(small.items, large.items) && SubMap(small.packages, large.packages)
    && small.nextId == large.nextId
  }

  lemma IdsBelowWithin(small: Db, large: Db)
    requires IdsBelow(large.vendors, large.restaurants, large.items, large.packages, large.nextId)
    requires Within(small, large)
    ensures IdsBelow(small.vendors, small.restaurants, small.items, small.packages, small.nextId)
  {
  }

  lemma VendorsWithin(small: map<Id, Vendor>, large: map<Id, Vendor>)
    requires UniqueEmails(large) && AllWellFormed(large) && SubMap(small, large)
    ensures UniqueEmails(small) && AllWellFormed(small)
  {
  }

  lemma RestaurantsWithin(small: map<Id, R.Restaurant>, large: map<Id, R.Restaurant>)
    requires OneRestaurantPerVendor(large) && SubMap(small, large)
    ensures OneRestaurantPerVendor(small)
  {
  }

  lemma PackagesWithin(small: Db, large: Db)
    requires PackagesSound(large.items, large.packages) && Within(small, large)
    ensures PackagesSound(small.items, small.packages)
  {
  }

  /** Dropping records keeps every part of the invariant except record
      ownership, which the caller establishes. */
  lemma InvWithin(small: Db, large: Db)
    requires Inv(large) && Within(small, large)
    requires OwnersVerified(small.vendors, small.restaurants, small.items, small.packages)
    ensures Inv(small)
  {
    IdsBelowWithin(small, large);
    VendorsWithin(small.vendors, large.vendors);
    RestaurantsWithin(small.restaurants, large.restaurants);
    PackagesWithin(small, large);
  }

  /** Once a vendor's records are gone, removing the vendor orphans
      nothing. */
  lemma OwnersAfterAccountRemoved(db: Db, id: Id)
    requires OwnersVerified(db.vendors, db.restaurants, db.items, db.packages)
    ensures OwnersVerified(db.vendors - {id},
                           db.restaurants - RestaurantIdsOf(db.restaurants, id),
                           db.items - ItemsOf(db.items, id).Keys,
                           db.packages - PackagesOf(db.packages, id).Keys)
  {
  }

  /** Dropping restaurants, items or packages leaves every remaining
      record's owner in place. */
  lemma OwnersWithin(small: Db, large: Db)
    requires OwnersVerified(large.vendors, large.restaurants, large.items, large.packages)
    requires Within(small, large) && small.vendors == large.vendors
    ensures OwnersVerified(small.vendors, small.restaurants, small.items, small.packages)
  {
  }

  /** Ids stay below the counter when one collection gains an entry under
      the counter's value and the counter moves past it. */
  lemma IdsAfterAdd(db: Db, grown: Db)
    requires IdsBelow(db.vendors, db.restaurants, db.items, db.packages, db.nextId)
    requires grown.nextId == db.nextId + 1 && grown.packages == db.packages
    requires grown.vendors.Keys <= db.vendors.Keys + {db.nextId}
    requires grown.restaurants.Keys <= db.restaurants.Keys + {db.nextId}
    requires grown.items.Keys <= db.items.Keys + {db.nextId}
    ensures IdsBelow(grown.vendors, grown.restaurants, grown.items, grown.packages, grown.nextId)
  {
  }

  /** Ids stay below the counter when an entry of a collection other than
      the packages is overwritten. */
  lemma IdsAfterReplace(db: Db, changed: Db)
    requires IdsBelow(db.vendors, db.restaurants, db.items, db.packages, db.nextId)
    requires changed.nextId == db.nextId && changed.packages == db.packages
    requires changed.vendors.Keys == db.vendors.Keys && changed.restaurants.Keys == db.restaurants.Keys
    requires changed.items.Keys == db.items.Keys
    ensures IdsBelow(changed.vendors, changed.restaurants, changed.items, changed.packages, changed.nextId)
  {
  }

  lemma VendorsAfterAdd(vendors: map<Id, Vendor>, id: Id, v: Vendor)
    requires UniqueEmails(vendors) && AllWellFormed(vendors) && VendorWellFormed(v)
    requires id !in vendors
    requires forall k :: k in vendors ==> vendors[k].email != v.email
    ensures UniqueEmails(vendors[id := v]) && AllWellFormed(vendors[id := v])
  {
  }

  lemma VendorsAfterReplace(vendors: map<Id, Vendor>, id: Id, v: Vendor)
    requires UniqueEmails(vendors) && AllWellFormed(vendors) && VendorWellFormed(v)
    requires id in vendors && v.email == vendors[id].email
    ensures UniqueEmails(vendors[id := v]) && AllWellFormed(vendors[id := v])
  {
  }

  /** Storing a vendor orphans nothing as long as a verified vendor stays
      verified. */
  lemma OwnersAfterVendorPut(db: Db, id: Id, v: Vendor)
    requires OwnersVerified(db.vendors, db.restaurants, db.items, db.packages)
    requires id in db.vendors && db.vendors[id].isVerified ==> v.isVerified
    ensures OwnersVerified(db.vendors[id := v], db.restaurants, db.items, db.packages)
  {
  }

  lemma OwnersAfterRestaurantPut(db: Db, id: Id, r: R.Restaurant)
    requires OwnersVerified(db.vendors, db.restaurants, db.items, db.packages)
    requires (id in db.restaurants && db.restaurants[id].vendorId == r.vendorId)
             || (r.vendorId in db.vendors && db.vendors[r.vendorId].isVerified)
    ensures OwnersVerified(db.vendors, db.restaurants[id := r], db.items, db.packages)
  {
  }

  lemma OwnersAfterItemPut(db: Db, id: Id, i: I.Item)
    requires OwnersVerified(db.vendors, db.restaurants, db.items, db.packages)
    requires (id in db.items && db.items[id].vendorId == i.vendorId)
             || (i.vendorId in db.vendors && db.vendors[i.vendorId].isVerified)
    ensures OwnersVerified(db.vendors, db.restaurants, db.items[id := i], db.packages)
  {
  }

  lemma OwnersAfterPackagePut(db: Db, id: Id, p: P.Package)
    requires OwnersVerified(db.vendors, db.restaurants, db.items, db.packages)
    requires (id in db.packages && db.packages[id].vendorId == p.vendorId)
             || (p.vendorId in db.vendors && db.vendors[p.vendorId].isVerified)
    ensures OwnersVerified(db.vendors, db.restaurants, db.items, db.packages[id := p])
  {
  }

  lemma RestaurantsAfterPut(restaurants: map<Id, R.Restaurant>, id: Id, r: R.Restaurant)
    requires OneRestaurantPerVendor(restaurants)
    requires forall k :: k in restaurants && k != id ==> restaurants[k].vendorId != r.vendorId
    ensures OneRestaurantPerVendor(restaurants[id := r])
  {
  }

  /** A new item takes the counter's id, which no package lists yet. */
  lemma PackagesAfterItemAdded(db: Db, i: I.Item)
    requires IdsBelow(db.vendors, db.restaurants, db.items, db.packages, db.nextId)
    requires PackagesSound(db.items, db.packages)
    ensures PackagesSound(db.items[db.nextId := i], db.packages)
  {
  }

  lemma PackagesAfterItemReplaced(items: map<Id, I.Item>, packages: map<Id, P.Package>, id: Id, i: I.Item)
    requires PackagesSound(items, packages)
    requires id in items && items[id].vendorId == i.vendorId
    ensures PackagesSound(items[id := i], packages)
  {
  }

  /** A package listing distinct items of its own vendor. */
  lemma PackagesAfterOwnedPut(items: map<Id, I.Item>, packages: map<Id, P.Package>, id: Id, p: P.Package)
    requires PackagesSound(items, packages)
    requires AllOwned(items, p.vendorId, p.items) && Distinct(p.items)
    ensures PackagesSound(items, packages[id := p])
  {
  }

  /** A package keeping its vendor and its item list. */
  lemma PackagesAfterSameItems(items: map<Id, I.Item>, packages: map<Id, P.Package>, id: Id, p: P.Package)
    requires PackagesSound(items, packages)
    requires id in packages && p.vendorId == packages[id].vendorId && p.items == packages[id].items
    ensures PackagesSound(items, packages[id := p])
  {
  }

  /** Listed items exist, so their ids are below the counter. */
  lemma IdsAfterPackagePut(db: Db, id: Id, p: P.Package)
    requires IdsBelow(db.vendors, db.restaurants, db.items, db.packages, db.nextId)
    requires id <= db.nextId
    requires (id in db.packages && p.items == db.packages[id].items) || AllOwned(db.items, p.vendorId, p.items)
    ensures IdsBelow(db.vendors, db.restaurants, db.items, db.packages[id := p], db.nextId + (if id == db.nextId then 1 else 0))
  {
  }

  // ---------------------------------------------------------------------
  // Writes
  // ---------------------------------------------------------------------

  /** Inserting a well-formed vendor under a fresh id and an unused
      e-mail. */
  lemma VendorAdded(db: Db, v: Vendor)
    requires Inv(db) && VendorWellFormed(v)
    requires forall id :: id in db.vendors ==> db.vendors[id].email != v.email
    ensures Inv(db.(vendors := db.vendors[db.nextId := v], nextId := db.nextId + 1))
  {
    IdsAfterAdd(db, db.(vendors := db.vendors[db.nextId := v], nextId := db.nextId + 1));
    VendorsAfterAdd(db.vendors, db.nextId, v);
    OwnersAfterVendorPut(db, db.nextId, v);
  }

  /** Replacing a vendor by a well-formed one with the same e-mail that is
      verified if the old one was. */
  lemma VendorReplaced(db: Db, id: Id, v: Vendor)
    requires Inv(db) && id in db.vendors && VendorWellFormed(v)
    requires v.email == db.vendors[id].email
    requires db.vendors[id].isVerified ==> v.isVerified
    ensures Inv(db.(vendors := db.vendors[id := v]))
  {
    IdsAfterReplace(db, db.(vendors := db.vendors[id := v]));
    VendorsAfterReplace(db.vendors, id, v);
    OwnersAfterVendorPut(db, id, v);
  }

  /** Removing a vendor together with every record it owns. */
  lemma AccountRemoved(db: Db, id: Id)
    requires Inv(db)
    ensures Inv(WithoutAccount(db, id))
  {
    var small := WithoutAccount(db, id);
    OwnersAfterAccountRemoved(db, id);
    InvWithin(small, db);
  }

  lemma RestaurantAdded(db: Db, r: R.Restaurant)
    requires Inv(db)
    requires r.vendorId in db.vendors && db.vendors[r.vendorId].isVerified
    requires forall id :: id in db.restaurants ==> db.restaurants[id].vendorId != r.vendorId
    ensures Inv(db.(restaurants := db.restaurants[db.nextId := r], nextId := db.nextId + 1))
  {
    IdsAfterAdd(db, db.(restaurants := db.restaurants[db.nextId := r], nextId := db.nextId + 1));
    RestaurantsAfterPut(db.restaurants, db.nextId, r);
    OwnersAfterRestaurantPut(db, db.nextId, r);
  }

  lemma RestaurantReplaced(db: Db, id: Id, r: R.Restaurant)
    requires Inv(db) && id in db.restaurants && r.vendorId == db.restaurants[id].vendorId
    ensures Inv(db.(restaurants := db.restaurants[id := r]))
  {
    IdsAfterReplace(db, db.(restaurants := db.restaurants[id := r]));
    RestaurantsAfterPut(db.restaurants, id, r);
    OwnersAfterRestaurantPut(db, id, r);
  }

  lemma RestaurantsRemoved(db: Db, ids: set<Id>)
    requires Inv(db)
    ensures Inv(db.(restaurants := db.restaurants - ids))
  {
    OwnersWithin(db.(restaurants := db.restaurants - ids), db);
    InvWithin(db.(restaurants := db.restaurants - ids), db);
  }

  lemma ItemAdded(db: Db, i: I.Item)
    requires Inv(db)
    requires i.vendorId in db.vendors && db.vendors[i.vendorId].isVerified
    ensures Inv(db.(items := db.items[db.nextId := i], nextId := db.nextId + 1))
  {
    IdsAfterAdd(db, db.(items := db.items[db.nextId := i], nextId := db.nextId + 1));
    OwnersAfterItemPut(db, db.nextId, i);
    PackagesAfterItemAdded(db, i);
  }

  lemma ItemReplaced(db: Db, id: Id, i: I.Item)
    requires Inv(db) && id in db.items && i.vendorId == db.items[id].vendorId
    ensures Inv(db.(items := db.items[id := i]))
  {
    IdsAfterReplace(db, db.(items := db.items[id := i]));
    OwnersAfterItemPut(db, id, i);
    PackagesAfterItemReplaced(db.items, db.packages, id, i);
  }

  /** Removing an item leaves the packages that list it sound: a listed
      id without its item is allowed. */
  lemma ItemRemoved(db: Db, id: Id)
    requires Inv(db)
    ensures Inv(db.(items := db.items - {id}))
  {
    OwnersWithin(db.(items := db.items - {id}), db);
    InvWithin(db.(items := db.items - {id}), db);
  }

  lemma PackageAdded(db: Db, p: P.Package)
    requires Inv(db)
    requires p.vendorId in db.vendors && db.vendors[p.vendorId].isVerified
    requires AllOwned(db.items, p.vendorId, p.items) && Distinct(p.items)
    ensures Inv(db.(packages := db.packages[db.nextId := p], nextId := db.nextId + 1))
  {
    IdsAfterPackagePut(db, db.nextId, p);
    OwnersAfterPackagePut(db, db.nextId, p);
    PackagesAfterOwnedPut(db.items, db.packages, db.nextId, p);
  }

  /** Replacing a package by one of the same vendor whose item list is
      either the old one or a list of the vendor's own items. */
  lemma PackageReplaced(db: Db, id: Id, p: P.Package)
    requires Inv(db) && id in db.packages && p.vendorId == db.packages[id].vendorId
    requires p.items == db.packages[id].items || (AllOwned(db.items, p.vendorId, p.items) && Distinct(p.items))
    ensures Inv(db.(packages := db.packages[id := p]))
  {
    IdsAfterPackagePut(db, id, p);
    OwnersAfterPackagePut(db, id, p);
    if p.items == db.packages[id].items {
      PackagesAfterSameItems(db.items, db.packages, id, p);
    } else {
      PackagesAfterOwnedPut(db.items, db.packages, id, p);
    }
  }

  lemma PackageRemoved(db: Db, id: Id)
    requires Inv(db)
    ensures Inv(db.(packages := db.packages - {id}))
  {
    OwnersWithin(db.(packages := db.packages - {id}), db);
    InvWithin(db.(packages := db.packages - {id}), db);
  }

  // ---------------------------------------------------------------------
  // Handlers
  // ---------------------------------------------------------------------

  /** A registration that passes the schema's validators stores a
      well-formed vendor: its e-mail normalised, its credentials hashed and
      its code pending. */
  lemma RegisteredWellFormed(b: RegisterBody, otp: string, now: Millis, salt: nat)
    requires otp != "" && SchemaValid(RegisterDraft(b, otp, now))
    ensures VendorWellFormed(PreSave(RegisterDraft(b, otp, now), true, true, salt))
  {
    NormalEmailIsNormal(Text(b.email));
    PreSaveStoresNoPlaintext(RegisterDraft(b, otp, now), true, true, salt);
  }

  /** A registration that passes every check adds a well-formed vendor
      under a fresh e-mail. */
  lemma RegisterAddsKeeps(db: Db, b: RegisterBody, otp: string, now: Millis, salt: nat)
    requires Inv(db) && otp != "" && SchemaValid(RegisterDraft(b, otp, now))
    requires forall id :: id in db.vendors ==> db.vendors[id].email != NormalEmail(Text(b.email))
    ensures Inv(db.(vendors := db.vendors[db.nextId := PreSave(RegisterDraft(b, otp, now), true, true, salt)],
                    nextId := db.nextId + 1))
  {
    RegisteredWellFormed(b, otp, now, salt);
    VendorAdded(db, PreSave(RegisterDraft(b, otp, now), true, true, salt));
  }

  lemma RegisterKeeps(db: Db, b: RegisterBody, isEmail: string -> bool, draw: nat, now: Millis,
                      salt: nat, mailed: bool)
    requires Inv(db)
    ensures Inv(Register(db, b, isEmail, draw, now, salt, mailed).db)
  {
    var s := Register(db, b, isEmail, draw, now, salt, mailed);
    var doc := RegisterDraft(b, GenerateOtp(draw), now);
    if && RegisterErrors(b, isEmail) == []
       && FindByEmail(db.vendors, NormalEmail(Text(b.email))).None?
       && SchemaValid(doc)
    {
      RegisterAddsKeeps(db, b, GenerateOtp(draw), now, salt);
      assert s.db == db.(vendors := db.vendors[db.nextId := PreSave(doc, true, true, salt)], nextId := db.nextId + 1);
    } else {
      assert s.db == db;
    }
  }

  lemma VerifyOtpKeeps(db: Db, b: OtpBody, isEmail: string -> bool, now: Millis)
    requires Inv(db)
    ensures Inv(VerifyOtp(db, b, isEmail, now).db)
  {
    var s := VerifyOtp(db, b, isEmail, now);
    if s.answer.Ok? {
      var id := FindByEmail(db.vendors, NormalEmail(Text(b.email))).value;
      assert VendorWellFormed(db.vendors[id]);
      VendorReplaced(db, id, MarkVerified(db.vendors[id]));
    }
  }

  /** The save in `verifyOTP` never fails: a pending vendor has not been
      edited since its registration passed validation. */
  lemma VerifyOtpSaves(db: Db, b: OtpBody, isEmail: string -> bool, now: Millis)
    requires Inv(db)
    ensures VerifyOtp(db, b, isEmail, now).answer != Err(ServerError)
  {
    var found := FindByEmail(db.vendors, NormalEmail(Text(b.email)));
    if found.Some? {
      assert VendorWellFormed(db.vendors[found.value]);
    }
  }

  lemma ResendOtpKeeps(db: Db, email: Option<string>, isEmail: string -> bool, draw: nat, now: Millis,
                       salt: nat, mailed: bool)
    requires Inv(db)
    ensures Inv(ResendOtp(db, email, isEmail, draw, now, salt, mailed).db)
  {
    var found := FindByEmail(db.vendors, NormalEmail(Text(email)));
    if ResendOtpErrors(email, isEmail) == [] && found.Some? && !db.vendors[found.value].isVerified {
      var v := db.vendors[found.value];
      assert VendorWellFormed(v);
      var doc := WithNewCode(v, GenerateOtp(draw), now);
      if SchemaValid(doc) {
        PreSaveStoresNoPlaintext(doc, false, true, salt);
        VendorReplaced(db, found.value, Reissue(v, GenerateOtp(draw), now, salt));
      }
    }
  }

  /** The save in `resendOTP` never fails either. */
  lemma ResendOtpSaves(db: Db, email: Option<string>, isEmail: string -> bool, draw: nat, now: Millis,
                       salt: nat, mailed: bool)
    requires Inv(db)
    requires mailed
    ensures ResendOtp(db, email, isEmail, draw, now, salt, mailed).answer != Err(ServerError)
  {
    var found := FindByEmail(db.vendors, NormalEmail(Text(email)));
    if found.Some? {
      assert VendorWellFormed(db.vendors[found.value]);
    }
  }

  /** What a profile update writes, when it writes anything. */
  lemma UpdateVendorWrites(db: Db, actor: Option<VendorPrincipal>, b: ProfileBody, isEmail: string -> bool,
                           mailed: bool)
    requires UniqueEmails(db.vendors)
    ensures var s := UpdateVendor(db, actor, b, isEmail, mailed);
      s.db != db ==>
        && actor.Some? && actor.value.email == Text(b.email)
        && AccountOf(db, actor, b.email).Ok?
        && var id := AccountOf(db, actor, b.email).value;
           s.db == db.(vendors := db.vendors[id := ApplyPatch(db.vendors[id], Changes(db.vendors[id], b))])
  {
  }

  /** A profile update behind the guard edits a verified vendor, whose
      fields the invariant no longer constrains. */
  lemma UpdateVendorKeeps(db: Db, actor: Option<VendorPrincipal>, b: ProfileBody, isEmail: string -> bool,
                          mailed: bool)
    requires Inv(db) && Authenticated(db, actor)
    ensures Inv(UpdateVendor(db, actor, b, isEmail, mailed).db)
  {
    UpdateVendorWrites(db, actor, b, isEmail, mailed);
    if UpdateVendor(db, actor, b, isEmail, mailed).db != db {
      var id := actor.value.id;
      ActorAccount(db, actor.value, b.email);
      var v := db.vendors[id];
      assert VendorWellFormed(v);
      VendorReplaced(db, id, ApplyPatch(v, Changes(v, b)));
    }
  }

  /** A password change keeps a vendor well formed, provided the document
      still passes the validators. */
  lemma NewPasswordWellFormed(v: Vendor, b: PasswordBody, salt: nat)
    requires VendorWellFormed(v) && SchemaValid(WithNewPassword(v, b))
    ensures VendorWellFormed(PreSave(WithNewPassword(v, b), true, false, salt))
  {
    PreSaveStoresNoPlaintext(WithNewPassword(v, b), true, false, salt);
  }

  /** What a password change writes, when it writes anything. */
  lemma UpdatePasswordWrites(db: Db, actor: Option<VendorPrincipal>, b: PasswordBody, isEmail: string -> bool,
                             salt: nat, mailed: bool)
    requires UniqueEmails(db.vendors)
    ensures var s := UpdatePassword(db, actor, b, isEmail, salt, mailed);
      s.db != db ==>
        && actor.Some? && actor.value.email == Text(b.email)
        && AccountOf(db, actor, b.email).Ok?
        && var id := AccountOf(db, actor, b.email).value;
           && SchemaValid(WithNewPassword(db.vendors[id], b))
           && s.db == db.(vendors := db.vendors[id := PreSave(WithNewPassword(db.vendors[id], b), true, false, salt)])
  {
  }

  lemma UpdatePasswordKeeps(db: Db, actor: Option<VendorPrincipal>, b: PasswordBody, isEmail: string -> bool,
                            salt: nat, mailed: bool)
    requires Inv(db) && Authenticated(db, actor)
    ensures Inv(UpdatePassword(db, actor, b, isEmail, salt, mailed).db)
  {
    UpdatePasswordWrites(db, actor, b, isEmail, salt, mailed);
    if UpdatePassword(db, actor, b, isEmail, salt, mailed).db != db {
      var id := actor.value.id;
      ActorAccount(db, actor.value, b.email);
      var v := db.vendors[id];
      NewPasswordWellFormed(v, b, salt);
      VendorReplaced(db, id, PreSave(WithNewPassword(v, b), true, false, salt));
    }
  }

  lemma DeleteAccountKeeps(db: Db, actor: Option<VendorPrincipal>, b: Credentials, isEmail: string -> bool,
                           mailed: bool)
    requires Inv(db)
    ensures Inv(DeleteAccount(db, actor, b, isEmail, mailed).db)
  {
    var s := DeleteAccount(db, actor, b, isEmail, mailed);
    if s.db != db {
      AccountRemoved(db, AccountOf(db, actor, b.email).value);
    }
  }

  lemma AddRestaurantKeeps(db: Db, actor: Option<VendorPrincipal>, b: RestaurantBody)
    requires Inv(db) && Authenticated(db, actor)
    ensures Inv(AddRestaurant(db, actor, b).db)
  {
    if AddRestaurant(db, actor, b).answer.Ok? {
      RestaurantAdded(db, R.NewRestaurant(actor.value.id, b));
    }
  }

  lemma UpdateRestaurantKeeps(db: Db, actor: Option<VendorPrincipal>, b: RestaurantBody)
    requires Inv(db)
    ensures Inv(UpdateRestaurant(db, actor, b).db)
  {
    if UpdateRestaurant(db, actor, b).answer.Ok? {
      var id := RestaurantOf(db.restaurants, actor.value.id).value;
      RestaurantReplaced(db, id, R.ApplyUpdate(db.restaurants[id], b));
    }
  }

  lemma DeleteRestaurantKeeps(db: Db, actor: Option<VendorPrincipal>)
    requires Inv(db)
    ensures Inv(DeleteRestaurant(db, actor).db)
  {
    if DeleteRestaurant(db, actor).answer.Ok? {
      RestaurantsRemoved(db, RestaurantIdsOf(db.restaurants, actor.value.id));
    }
  }

  lemma AddItemKeeps(db: Db, actor: Option<VendorPrincipal>, b: ItemBody)
    requires Inv(db) && Authenticated(db, actor)
    ensures Inv(AddItem(db, actor, b).db)
  {
    if AddItem(db, actor, b).answer.Ok? {
      ItemAdded(db, I.NewItem(actor.value.id, b));
    }
  }

  lemma UpdateItemKeeps(db: Db, actor: Option<VendorPrincipal>, itemId: ItemRef, b: ItemBody)
    requires Inv(db)
    ensures Inv(UpdateItem(db, actor, itemId, b).db)
  {
    if UpdateItem(db, actor, itemId, b).answer.Ok? {
      ItemReplaced(db, itemId.id, I.ApplyUpdate(db.items[itemId.id], b));
    }
  }

  lemma DeleteItemKeeps(db: Db, actor: Option<VendorPrincipal>, itemId: ItemRef)
    requires Inv(db)
    ensures Inv(DeleteItem(db, actor, itemId).db)
  {
    if DeleteItem(db, actor, itemId).answer.Ok? {
      ItemRemoved(db, itemId.id);
    }
  }

  lemma AddPackageKeeps(db: Db, actor: Option<VendorPrincipal>, b: PackageBody)
    requires Inv(db) && Authenticated(db, actor)
    ensures Inv(AddPackage(db, actor, b).db)
  {
    if AddPackage(db, actor, b).answer.Ok? {
      PackageAdded(db, P.NewPackage(actor.value.id, b, RefIds(b.items.value)));
    }
  }

  lemma UpdatePackageKeeps(db: Db, actor: Option<VendorPrincipal>, packageId: ItemRef, b: PackageBody)
    requires Inv(db)
    ensures Inv(UpdatePackage(db, actor, packageId, b).db)
  {
    if UpdatePackage(db, actor, packageId, b).answer.Ok? {
      var ids := if b.items.Some? then Some(RefIds(b.items.value)) else None;
      PackageReplaced(db, packageId.id, P.ApplyUpdate(db.packages[packageId.id], b, ids));
    }
  }

  lemma DeletePackageKeeps(db: Db, actor: Option<VendorPrincipal>, packageId: ItemRef)
    requires Inv(db)
    ensures Inv(DeletePackage(db, actor, packageId).db)
  {
    if DeletePackage(db, actor, packageId).answer.Ok? {
      PackageRemoved(db, packageId.id);
    }
  }
}
