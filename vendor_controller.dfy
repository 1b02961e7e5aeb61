/** The vendor controller (backend/controllers/vendorController.js) as a
    store whose four collections its handlers change in place. Each
    handler runs its checks and writes one after another, as the source
    does, and is proved to leave the store exactly as the matching
    function of `VendorHandlers` says, with the same answer, and to keep
    the database invariant `Inv`. */
module VendorController {
  import opened Common
  import opened Strings
  import opened VendorRoutes
  import opened VendorSchema
  import opened VendorState
  import opened VendorAuth
  import opened H = VendorHandlers
  import opened VendorInvariant
  import I = ItemSchema
  import P = PackageSchema
  import R = RestaurantSchema

  /** Each handler method runs the checks in the order the function of
      the same name in `VendorHandlers` decides them, and is proved to
      leave that function's state and answer. */
  class VendorStore {
    var vendors: map<Id, Vendor>
    var restaurants: map<Id, R.Restaurant>
    var items: map<Id, I.Item>
    var packages: map<Id, P.Package>
    /** Where the next `_id` comes from. */
    var nextId: Id

    function State(): Db
      reads this
    {
      Db(vendors, restaurants, items, packages, nextId)
    }

    predicate Valid()
      reads this
    {
      Inv(State())
    }

    /** An empty database. */
    constructor ()
      ensures Valid()
      ensures State() == Db(map[], map[], map[], map[], 0)
    {
      vendors, restaurants, items, packages := map[], map[], map[], map[];
      nextId := 0;
    }

    // -------------------------------------------------------------------
    // Single writes: `save`, `findOneAndUpdate` and `deleteOne` on one
    // collection. Each handler ends in at most one of these, and each keeps
    // the invariant when given the facts the handler has checked.
    // -------------------------------------------------------------------

    /** `new Vendor(...).save()`: the document takes the next id. */
    method InsertVendor(v: Vendor) returns (id: Id)
      requires Valid() && VendorWellFormed(v)
      requires forall k :: k in vendors ==> vendors[k].email != v.email
      modifies this
      ensures id == old(nextId)
      ensures State() == old(State()).(vendors := old(vendors)[id := v], nextId := id + 1)
      ensures Valid()
    {
      VendorAdded(State(), v);
      id := nextId;
      vendors := vendors[id := v];
      nextId := nextId + 1;
    }

    /** `vendor.save()` on a stored document: the e-mail stays and a
        verified account stays verified. */
    method PutVendor(id: Id, v: Vendor)
      requires Valid() && id in vendors && VendorWellFormed(v)
      requires v.email == vendors[id].email && (vendors[id].isVerified ==> v.isVerified)
      modifies this
      ensures State() == old(State()).(vendors := old(vendors)[id := v])
      ensures Valid()
    {
      VendorReplaced(State(), id, v);
      vendors := vendors[id := v];
    }

    /** `new Restaurant(...).save()` for a verified vendor without one. */
    method InsertRestaurant(r: R.Restaurant) returns (id: Id)
      requires Valid() && r.vendorId in vendors && vendors[r.vendorId].isVerified
      requires forall k :: k in restaurants ==> restaurants[k].vendorId != r.vendorId
      modifies this
      ensures id == old(nextId)
      ensures State() == old(State()).(restaurants := old(restaurants)[id := r], nextId := id + 1)
      ensures Valid()
    {
      RestaurantAdded(State(), r);
      id := nextId;
      restaurants := restaurants[id := r];
      nextId := nextId + 1;
    }

    /** `Restaurant.findOneAndUpdate`: the owner stays. */
    method PutRestaurant(id: Id, r: R.Restaurant)
      requires Valid() && id in restaurants && r.vendorId == restaurants[id].vendorId
      modifies this
      ensures State() == old(State()).(restaurants := old(restaurants)[id := r])
      ensures Valid()
    {
      RestaurantReplaced(State(), id, r);
      restaurants := restaurants[id := r];
    }

    method RemoveRestaurant(id: Id)
      requires Valid()
      modifies this
      ensures State() == old(State()).(restaurants := old(restaurants) - {id})
      ensures Valid()
    {
      RestaurantsRemoved(State(), {id});
      restaurants := restaurants - {id};
    }

    /** `new Item(...).save()` for a verified vendor. */
    method InsertItem(i: I.Item) returns (id: Id)
      requires Valid() && i.vendorId in vendors && vendors[i.vendorId].isVerified
      modifies this
      ensures id == old(nextId)
      ensures State() == old(State()).(items := old(items)[id := i], nextId := id + 1)
      ensures Valid()
    {
      ItemAdded(State(), i);
      id := nextId;
      items := items[id := i];
      nextId := nextId + 1;
    }

    /** `Item.findOneAndUpdate`: the owner stays. */
    method PutItem(id: Id, i: I.Item)
      requires Valid() && id in items && i.vendorId == items[id].vendorId
      modifies this
      ensures State() == old(State()).(items := old(items)[id := i])
      ensures Valid()
    {
      ItemReplaced(State(), id, i);
      items := items[id := i];
    }

    method RemoveItem(id: Id)
      requires Valid()
      modifies this
      ensures State() == old(State()).(items := old(items) - {id})
      ensures Valid()
    {
      ItemRemoved(State(), id);
      items := items - {id};
    }

    /** `new BreakfastPackage(...).save()` for a verified vendor whose
        package lists distinct items of its own. */
    method InsertPackage(p: P.Package) returns (id: Id)
      requires Valid() && p.vendorId in vendors && vendors[p.vendorId].isVerified
      requires AllOwned(items, p.vendorId, p.items) && Distinct(p.items)
      modifies this
      ensures id == old(nextId)
      ensures State() == old(State()).(packages := old(packages)[id := p], nextId := id + 1)
      ensures Valid()
    {
      PackageAdded(State(), p);
      id := nextId;
      packages := packages[id := p];
      nextId := nextId + 1;
    }

    /** `BreakfastPackage.findOneAndUpdate`: the owner stays, and a new
        item list again names distinct items of the owner's. */
    method PutPackage(id: Id, p: P.Package)
      requires Valid() && id in packages && p.vendorId == packages[id].vendorId
      requires p.items == packages[id].items || (AllOwned(items, p.vendorId, p.items) && Distinct(p.items))
      modifies this
      ensures State() == old(State()).(packages := old(packages)[id := p])
      ensures Valid()
    {
      PackageReplaced(State(), id, p);
      packages := packages[id := p];
    }

    method RemovePackage(id: Id)
      requires Valid()
      modifies this
      ensures State() == old(State()).(packages := old(packages) - {id})
      ensures Valid()
    {
      PackageRemoved(State(), id);
      packages := packages - {id};
    }

    // -------------------------------------------------------------------
    // Account life cycle
    // -------------------------------------------------------------------

    method Register(b: RegisterBody, isEmail: string -> bool, draw: nat, now: Millis, salt: nat, mailed: bool)
      returns (r: Outcome<string>)
      requires Valid()
      modifies this
      ensures var s := H.Register(old(State()), b, isEmail, draw, now, salt, mailed);
        State() == s.db && r == s.answer
      ensures Valid()
    {
      var errors := RegisterErrors(b, isEmail);
      if errors != [] {
        return Err(Rejected(errors));
      }
      var existing := FindByEmail(vendors, NormalEmail(Text(b.email)));
      if existing.Some? {
        return Err(VendorExists);
      }
      var otp := GenerateOtp(draw);
      var vendor := RegisterDraft(b, otp, now);
      if !SchemaValid(vendor) {
        return Err(ServerError);
      }
      RegisteredWellFormed(b, otp, now, salt);
      var _ := InsertVendor(PreSave(vendor, true, true, salt));
      r := AfterMail(otp, mailed);
    }

    method VerifyOtp(b: OtpBody, isEmail: string -> bool, now: Millis) returns (r: Outcome<()>)
      requires Valid()
      modifies this
      ensures var s := H.VerifyOtp(old(State()), b, isEmail, now);
        State() == s.db && r == s.answer
      ensures Valid()
    {
      var errors := VerifyOtpErrors(b, isEmail);
      if errors != [] {
        return Err(Rejected(errors));
      }
      var found := FindByEmail(vendors, NormalEmail(Text(b.email)));
      if found.None? {
        return Err(VendorNotFound);
      }
      var vendor := vendors[found.value];
      if vendor.isVerified {
        return Err(AlreadyVerified);
      }
      if !OtpAccepts(vendor, Text(b.otp), now) {
        return Err(InvalidOrExpiredOtp);
      }
      assert VendorWellFormed(vendor);
      vendor := vendor.(isVerified := true);
      vendor := vendor.(otp := None);
      vendor := vendor.(otpExpiry := None);
      if !SchemaValid(vendor) {
        return Err(ServerError);
      }
      PutVendor(found.value, vendor);
      r := Ok(());
    }

    method ResendOtp(email: Option<string>, isEmail: string -> bool, draw: nat, now: Millis, salt: nat,
                     mailed: bool) returns (r: Outcome<string>)
      requires Valid()
      modifies this
      ensures var s := H.ResendOtp(old(State()), email, isEmail, draw, now, salt, mailed);
        State() == s.db && r == s.answer
      ensures Valid()
    {
      var errors := ResendOtpErrors(email, isEmail);
      if errors != [] {
        return Err(Rejected(errors));
      }
      var found := FindByEmail(vendors, NormalEmail(Text(email)));
      if found.None? {
        return Err(VendorNotFound);
      }
      var vendor := vendors[found.value];
      if vendor.isVerified {
        return Err(AlreadyVerified);
      }
      assert VendorWellFormed(vendor);
      var otp := GenerateOtp(draw);
      vendor := vendor.(otp := Some(Plain(otp)));
      vendor := vendor.(otpExpiry := Some(OtpExpiry(now)));
      if !SchemaValid(vendor) {
        return Err(ServerError);
      }
      PreSaveStoresNoPlaintext(vendor, false, true, salt);
      PutVendor(found.value, PreSave(vendor, false, true, salt));
      r := AfterMail(otp, mailed);
    }

    /** `updateVendor`, behind the vendor guard. */
    method UpdateVendor(actor: Option<VendorPrincipal>, b: ProfileBody, isEmail: string -> bool, mailed: bool)
      returns (r: Outcome<()>)
      requires Valid() && Authenticated(State(), actor)
      modifies this
      ensures var s := H.UpdateVendor(old(State()), actor, b, isEmail, mailed);
        State() == s.db && r == s.answer
      ensures Valid()
    {
      var errors := ProfileErrors(b, isEmail);
      if errors != [] {
        return Err(Rejected(errors));
      }
      if actor.None? || actor.value.email != Text(b.email) {
        return Err(BadTokenOrEmail);
      }
      var found := FindByEmail(vendors, NormalEmail(Text(b.email)));
      if found.None? {
        return Err(VendorNotFound);
      }
      var vendor := vendors[found.value];
      if !ComparePassword(vendor, Text(b.password)) {
        return Err(IncorrectPassword);
      }
      var updated := ProfilePatch(None, None, None);
      if b.name.Some? && b.name.value != "" && b.name.value != vendor.name {
        updated := updated.(name := b.name);
      }
      if b.phoneNumber.Some? && b.phoneNumber.value != "" && b.phoneNumber.value != vendor.phoneNumber {
        updated := updated.(phoneNumber := b.phoneNumber);
      }
      if b.address.Some? && b.address.value != "" && b.address.value != vendor.address {
        updated := updated.(address := b.address);
      }
      assert updated == Changes(vendor, b);
      if IsEmptyPatch(updated) {
        return Err(NoChanges);
      }
      ActorAccount(State(), actor.value, b.email);
      assert VendorWellFormed(vendor);
      PutVendor(found.value, ApplyPatch(vendor, updated));
      r := AfterMail((), mailed);
    }

    /** `updatePassword`, behind the vendor guard. */
    method UpdatePassword(actor: Option<VendorPrincipal>, b: PasswordBody, isEmail: string -> bool, salt: nat,
                          mailed: bool) returns (r: Outcome<()>)
      requires Valid() && Authenticated(State(), actor)
      modifies this
      ensures var s := H.UpdatePassword(old(State()), actor, b, isEmail, salt, mailed);
        State() == s.db && r == s.answer
      ensures Valid()
    {
      var errors := PasswordErrors(b, isEmail);
      if errors != [] {
        return Err(Rejected(errors));
      }
      if actor.None? || actor.value.email != Text(b.email) {
        return Err(BadTokenOrEmail);
      }
      var found := FindByEmail(vendors, NormalEmail(Text(b.email)));
      if found.None? {
        return Err(VendorNotFound);
      }
      var vendor := vendors[found.value];
      if !ComparePassword(vendor, Text(b.currentPassword)) {
        return Err(IncorrectCurrentPassword);
      }
      ghost var stored := vendor;
      vendor := vendor.(password := Plain(Text(b.newPassword)));
      if !SchemaValid(vendor) {
        return Err(ServerError);
      }
      ActorAccount(State(), actor.value, b.email);
      NewPasswordWellFormed(stored, b, salt);
      PutVendor(found.value, PreSave(vendor, true, false, salt));
      r := AfterMail((), mailed);
    }

    /** `deleteAccount`. */
    method DeleteAccount(actor: Option<VendorPrincipal>, b: Credentials, isEmail: string -> bool, mailed: bool)
      returns (r: Outcome<()>)
      requires Valid()
      modifies this
      ensures var s := H.DeleteAccount(old(State()), actor, b, isEmail, mailed);
        State() == s.db && r == s.answer
      ensures Valid()
    {
      var errors := CredentialsErrors(b, isEmail);
      if errors != [] {
        return Err(Rejected(errors));
      }
      if actor.None? || actor.value.email != Text(b.email) {
        return Err(BadTokenOrEmail);
      }
      var found := FindByEmail(vendors, NormalEmail(Text(b.email)));
      if found.None? {
        return Err(VendorNotFound);
      }
      var id := found.value;
      if !ComparePassword(vendors[id], Text(b.password)) {
        return Err(IncorrectPassword);
      }
      AccountRemoved(State(), id);
      RemoveAccount(id);
      r := AfterMail((), mailed);
    }

    /** The cascade `deleteAccount` runs once the password matched: the
        vendor's restaurant, its items, its packages, then the vendor. */
    method RemoveAccount(id: Id)
      requires OneRestaurantPerVendor(restaurants)
      modifies this
      ensures State() == WithoutAccount(old(State()), id)
    {
      var restaurant := RestaurantOf(restaurants, id);
      OnlyRestaurant(restaurants, id);
      if restaurant.Some? {
        restaurants := restaurants - {restaurant.value};
      }
      items := items - ItemsOf(items, id).Keys;
      packages := packages - PackagesOf(packages, id).Keys;
      vendors := vendors - {id};
    }

    // -------------------------------------------------------------------
    // Restaurant
    // -------------------------------------------------------------------

    method AddRestaurant(actor: Option<VendorPrincipal>, b: RestaurantBody) returns (r: Outcome<Id>)
      requires Valid() && Authenticated(State(), actor)
      modifies this
      ensures var s := H.AddRestaurant(old(State()), actor, b);
        State() == s.db && r == s.answer
      ensures Valid()
    {
      var errors := RestaurantCreateErrors(b);
      if errors != [] {
        return Err(Rejected(errors));
      }
      if actor.None? {
        return Err(NotLoggedIn);
      }
      var existing := RestaurantOf(restaurants, actor.value.id);
      if existing.Some? {
        return Err(RestaurantExists);
      }
      var restaurant := R.NewRestaurant(actor.value.id, b);
      if !R.SchemaValid(restaurant) {
        return Err(ServerError);
      }
      var id := InsertRestaurant(restaurant);
      r := Ok(id);
    }

    /** `updateRestaurant`: the vendor's own restaurant, whatever `:id`
        names. */
    method UpdateRestaurant(actor: Option<VendorPrincipal>, b: RestaurantBody) returns (r: Outcome<R.Restaurant>)
      requires Valid()
      modifies this
      ensures var s := H.UpdateRestaurant(old(State()), actor, b);
        State() == s.db && r == s.answer
      ensures Valid()
    {
      var errors := RestaurantUpdateErrors(b);
      if errors != [] {
        return Err(Rejected(errors));
      }
      if actor.None? {
        return Err(NotLoggedIn);
      }
      var found := RestaurantOf(restaurants, actor.value.id);
      if found.None? {
        return Err(RestaurantNotFound);
      }
      var restaurant := R.ApplyUpdate(restaurants[found.value], b);
      PutRestaurant(found.value, restaurant);
      r := Ok(restaurant);
    }

    method DeleteRestaurant(actor: Option<VendorPrincipal>) returns (r: Outcome<()>)
      requires Valid()
      modifies this
      ensures var s := H.DeleteRestaurant(old(State()), actor);
        State() == s.db && r == s.answer
      ensures Valid()
    {
      if actor.None? {
        return Err(NotLoggedIn);
      }
      var found := RestaurantOf(restaurants, actor.value.id);
      OnlyRestaurant(restaurants, actor.value.id);
      if found.None? {
        return Err(RestaurantNotFound);
      }
      RemoveRestaurant(found.value);
      r := Ok(());
    }

    // -------------------------------------------------------------------
    // Items
    // -------------------------------------------------------------------

    method AddItem(actor: Option<VendorPrincipal>, b: ItemBody) returns (r: Outcome<Id>)
      requires Valid() && Authenticated(State(), actor)
      modifies this
      ensures var s := H.AddItem(old(State()), actor, b);
        State() == s.db && r == s.answer
      ensures Valid()
    {
      var errors := ItemCreateErrors(b);
      if errors != [] {
        return Err(Rejected(errors));
      }
      if actor.None? {
        return Err(NotLoggedIn);
      }
      var item := I.NewItem(actor.value.id, b);
      if !I.SchemaValid(item) {
        return Err(ServerError);
      }
      var id := InsertItem(item);
      r := Ok(id);
    }

    method UpdateItem(actor: Option<VendorPrincipal>, itemId: ItemRef, b: ItemBody) returns (r: Outcome<I.Item>)
      requires Valid()
      modifies this
      ensures var s := H.UpdateItem(old(State()), actor, itemId, b);
        State() == s.db && r == s.answer
      ensures Valid()
    {
      var errors := ItemUpdateErrors(b);
      if errors != [] {
        return Err(Rejected(errors));
      }
      if actor.None? {
        return Err(NotLoggedIn);
      }
      if itemId.Malformed? {
        return Err(ServerError);
      }
      if itemId.id !in items || items[itemId.id].vendorId != actor.value.id {
        return Err(ItemNotFound);
      }
      var item := I.ApplyUpdate(items[itemId.id], b);
      PutItem(itemId.id, item);
      r := Ok(item);
    }

    method DeleteItem(actor: Option<VendorPrincipal>, itemId: ItemRef) returns (r: Outcome<()>)
      requires Valid()
      modifies this
      ensures var s := H.DeleteItem(old(State()), actor, itemId);
        State() == s.db && r == s.answer
      ensures Valid()
    {
      if actor.None? {
        return Err(NotLoggedIn);
      }
      if itemId.Malformed? {
        return Err(ServerError);
      }
      if itemId.id !in items || items[itemId.id].vendorId != actor.value.id {
        return Err(ItemNotFound);
      }
      RemoveItem(itemId.id);
      r := Ok(());
    }

    // -------------------------------------------------------------------
    // Breakfast packages
    // -------------------------------------------------------------------

    method AddPackage(actor: Option<VendorPrincipal>, b: PackageBody) returns (r: Outcome<Id>)
      requires Valid() && Authenticated(State(), actor)
      modifies this
      ensures var s := H.AddPackage(old(State()), actor, b);
        State() == s.db && r == s.answer
      ensures Valid()
    {
      var errors := PackageCreateErrors(b);
      if errors != [] {
        return Err(Rejected(errors));
      }
      if actor.None? {
        return Err(NotLoggedIn);
      }
      if !AllRefs(b.items.value) {
        return Err(BadItemIdFormat);
      }
      var ids := RefIds(b.items.value);
      var validItems := OwnedAmong(items, actor.value.id, ids);
      OwnershipCount(items, actor.value.id, ids);
      if |validItems| != |ids| {
        return Err(ItemsNotAuthorized);
      }
      var package := P.NewPackage(actor.value.id, b, ids);
      if !P.SchemaValid(package) {
        return Err(ServerError);
      }
      var id := InsertPackage(package);
      r := Ok(id);
    }

    method UpdatePackage(actor: Option<VendorPrincipal>, packageId: ItemRef, b: PackageBody)
      returns (r: Outcome<P.Package>)
      requires Valid()
      modifies this
      ensures var s := H.UpdatePackage(old(State()), actor, packageId, b);
        State() == s.db && r == s.answer
      ensures Valid()
    {
      var errors := PackageUpdateErrors(b);
      if errors != [] {
        return Err(Rejected(errors));
      }
      if actor.None? {
        return Err(NotLoggedIn);
      }
      var ids: Option<seq<Id>> := None;
      if b.items.Some? {
        if !AllRefs(b.items.value) {
          return Err(ServerError);
        }
        ids := Some(RefIds(b.items.value));
        var validItems := OwnedAmong(items, actor.value.id, ids.value);
        OwnershipCount(items, actor.value.id, ids.value);
        if |validItems| != |ids.value| {
          return Err(ItemsNotAuthorized);
        }
      }
      if packageId.Malformed? {
        return Err(ServerError);
      }
      if packageId.id !in packages || packages[packageId.id].vendorId != actor.value.id {
        return Err(PackageNotFound);
      }
      var package := P.ApplyUpdate(packages[packageId.id], b, ids);
      PutPackage(packageId.id, package);
      r := Ok(package);
    }

    method DeletePackage(actor: Option<VendorPrincipal>, packageId: ItemRef) returns (r: Outcome<()>)
      requires Valid()
      modifies this
      ensures var s := H.DeletePackage(old(State()), actor, packageId);
        State() == s.db && r == s.answer
      ensures Valid()
    {
      if actor.None? {
        return Err(NotLoggedIn);
      }
      if packageId.Malformed? {
        return Err(ServerError);
      }
      if packageId.id !in packages || packages[packageId.id].vendorId != actor.value.id {
        return Err(PackageNotFound);
      }
      RemovePackage(packageId.id);
      r := Ok(());
    }
  }
}
