/** The vendor side of the database as values: the four collections the
    vendor controller reads and writes, the lookups its queries perform,
    and the invariants the controller keeps between requests. */
module VendorState {
  import opened Common
  import opened Strings
  import opened VendorRoutes
  import opened VendorSchema
  import I = ItemSchema
  import P = PackageSchema
  import R = RestaurantSchema

  // ---------------------------------------------------------------------
  // Queries
  // ---------------------------------------------------------------------

  /** The `unique: true` index on the vendor e-mail. */
  predicate UniqueEmails(vendors: map<Id, Vendor>)
  {
    forall a, b :: a in vendors && b in vendors && vendors[a].email == vendors[b].email ==> a == b
  }

  /** `Vendor.findOne({ email })`, where `key` is the e-mail after the
      schema's setters. */
  function FindByEmail(vendors: map<Id, Vendor>, key: string): (found: Option<Id>)
    requires UniqueEmails(vendors)
    ensures found.Some? ==> found.value in vendors && vendors[found.value].email == key
    ensures found.None? ==> forall id :: id in vendors ==> vendors[id].email != key
  {
    if exists id :: id in vendors && vendors[id].email == key then
      var id :| id in vendors && vendors[id].email == key;
      Some(id)
    else
      None
  }

  /** The `unique: true` index on the restaurant's `vendorId`. */
  predicate OneRestaurantPerVendor(restaurants: map<Id, R.Restaurant>)
  {
    forall a, b :: a in restaurants && b in restaurants && restaurants[a].vendorId == restaurants[b].vendorId ==> a == b
  }

  /** `Restaurant.findOne({ vendorId })`. */
  function RestaurantOf(restaurants: map<Id, R.Restaurant>, vendorId: Id): (found: Option<Id>)
    requires OneRestaurantPerVendor(restaurants)
    ensures found.Some? ==> found.value in restaurants && restaurants[found.value].vendorId == vendorId
    ensures found.None? ==> forall id :: id in restaurants ==> restaurants[id].vendorId != vendorId
  {
    if exists id :: id in restaurants && restaurants[id].vendorId == vendorId then
      var id :| id in restaurants && restaurants[id].vendorId == vendorId;
      Some(id)
    else
      None
  }

  /** The restaurants of a vendor, `{ vendorId }` as a filter. */
  function RestaurantIdsOf(restaurants: map<Id, R.Restaurant>, vendorId: Id): (ids: set<Id>)
    ensures forall id :: id in ids <==> id in restaurants && restaurants[id].vendorId == vendorId
  {
    set id | id in restaurants && restaurants[id].vendorId == vendorId
  }

  /** With the unique index, `Restaurant.deleteOne({ vendorId })` removes
      every restaurant of the vendor: there is at most the one
      `findOne` finds. */
  lemma OnlyRestaurant(restaurants: map<Id, R.Restaurant>, vendorId: Id)
    requires OneRestaurantPerVendor(restaurants)
    ensures RestaurantIdsOf(restaurants, vendorId) ==
      (if RestaurantOf(restaurants, vendorId).Some? then {RestaurantOf(restaurants, vendorId).value} else {})
  {
  }

  /** `Item.find({ vendorId })`. */
  function ItemsOf(items: map<Id, I.Item>, vendorId: Id): (owned: map<Id, I.Item>)
    ensures forall id :: id in owned <==> id in items && items[id].vendorId == vendorId
    ensures forall id :: id in owned ==> owned[id] == items[id]
  {
    map id | id in items && items[id].vendorId == vendorId :: items[id]
  }

  /** `Package.find({ vendorId })`. */
  function PackagesOf(packages: map<Id, P.Package>, vendorId: Id): (owned: map<Id, P.Package>)
    ensures forall id :: id in owned <==> id in packages && packages[id].vendorId == vendorId
    ensures forall id :: id in owned ==> owned[id] == packages[id]
  {
    map id | id in packages && packages[id].vendorId == vendorId :: packages[id]
  }

  /** `Item.find({ _id: { $in: refs }, vendorId })`: the distinct ids among
      `refs` that name an item of the vendor. */
  function OwnedAmong(items: map<Id, I.Item>, vendorId: Id, refs: seq<Id>): (found: set<Id>)
    ensures found <= ToSet(refs)
    ensures forall id :: id in found <==> id in refs && id in items && items[id].vendorId == vendorId
  {
    set id | id in refs && id in items && items[id].vendorId == vendorId
  }

  function ToSet(s: seq<Id>): (r: set<Id>)
    ensures forall x :: x in r <==> x in s
  {
    set x | x in s
  }

  predicate Distinct(s: seq<Id>)
  {
    forall i, j :: 0 <= i < j < |s| ==> s[i] != s[j]
  }

  /** Every id of `refs` names an item of the vendor. */
  predicate AllOwned(items: map<Id, I.Item>, vendorId: Id, refs: seq<Id>)
  {
    forall k :: 0 <= k < |refs| ==> refs[k] in items && items[refs[k]].vendorId == vendorId
  }

  /** A sequence has as many distinct elements as positions exactly when no
      element repeats. */
  lemma {:induction false} ToSetSize(s: seq<Id>)
    ensures |ToSet(s)| <= |s|
    ensures |ToSet(s)| == |s| <==> Distinct(s)
  {
    if s != [] {
      var rest := s[1..];
      ToSetSize(rest);
      assert ToSet(s) == {s[0]} + ToSet(rest);
      if s[0] in rest {
        assert ToSet(s) == ToSet(rest);
        var j :| 0 <= j < |rest| && rest[j] == s[0];
        assert s[0] == s[j + 1];
      } else {
        assert Distinct(s) <==> Distinct(rest) by {
          if Distinct(rest) {
            forall i, j | 0 <= i < j < |s| ensures s[i] != s[j] {
              if i > 0 { assert s[i] == rest[i - 1] && s[j] == rest[j - 1]; }
              else { assert s[j] in rest; }
            }
          }
          if Distinct(s) {
            forall i, j | 0 <= i < j < |rest| ensures rest[i] != rest[j] {
              assert rest[i] == s[i + 1] && rest[j] == s[j + 1];
            }
          }
        }
      }
    }
  }

  lemma {:induction false} SubsetSize<T>(a: set<T>, b: set<T>)
    requires a <= b
    ensures |a| <= |b|
    ensures |a| == |b| ==> a == b
  {
    if a != {} {
      var x :| x in a;
      SubsetSize(a - {x}, b - {x});
    } else if b != {} {
      var y :| y in b;
      assert |b| >= 1 by { assert y in b; }
    }
  }

  /** The controller's ownership test `validItems.length !== items.length`
      passes exactly when every listed id names an item of the vendor and
      no id is listed twice. */
  lemma OwnershipCount(items: map<Id, I.Item>, vendorId: Id, refs: seq<Id>)
    ensures |OwnedAmong(items, vendorId, refs)| == |refs| <==> AllOwned(items, vendorId, refs) && Distinct(refs)
  {
    var found := OwnedAmong(items, vendorId, refs);
    ToSetSize(refs);
    SubsetSize(found, ToSet(refs));
    if AllOwned(items, vendorId, refs) {
      assert found == ToSet(refs);
    } else {
      var k :| 0 <= k < |refs| && !(refs[k] in items && items[refs[k]].vendorId == vendorId);
      assert refs[k] in ToSet(refs) && refs[k] !in found;
    }
  }

  /** `.populate('items')`: each id replaced by its item, ids whose item is
      gone dropped. */
  function Populate(items: map<Id, I.Item>, refs: seq<Id>): (shown: seq<I.Item>)
    ensures |shown| <= |refs|
    ensures (forall k :: 0 <= k < |refs| ==> refs[k] in items) ==> |shown| == |refs|
  {
    if refs == [] then []
    else (if refs[0] in items then [items[refs[0]]] else []) + Populate(items, refs[1..])
  }

  /** What a populated list shows: exactly the items of the listed ids that
      still exist. */
  lemma {:induction false} PopulateShows(items: map<Id, I.Item>, refs: seq<Id>)
    ensures forall x :: x in Populate(items, refs) <==>
      exists k :: 0 <= k < |refs| && refs[k] in items && x == items[refs[k]]
  {
    if refs != [] {
      PopulateShows(items, refs[1..]);
      forall x | x in Populate(items, refs)
        ensures exists k :: 0 <= k < |refs| && refs[k] in items && x == items[refs[k]]
      {
        if !(refs[0] in items && x == items[refs[0]]) {
          var k :| 0 <= k < |refs[1..]| && refs[1..][k] in items && x == items[refs[1..][k]];
          assert refs[k + 1] == refs[1..][k];
        }
      }
      forall x, k | 0 <= k < |refs| && refs[k] in items && x == items[refs[k]]
        ensures x in Populate(items, refs)
      {
        if k > 0 {
          assert refs[1..][k - 1] == refs[k];
        }
      }
    }
  }

  /** Populating keeps the order of the list: a list made of two parts
      shows the first part's items, then the second's. */
  lemma {:induction false} PopulateAppend(items: map<Id, I.Item>, a: seq<Id>, b: seq<Id>)
    ensures Populate(items, a + b) == Populate(items, a) + Populate(items, b)
  {
    if a == [] {
      assert a + b == b;
    } else {
      assert (a + b)[0] == a[0] && (a + b)[1..] == a[1..] + b;
      PopulateAppend(items, a[1..], b);
    }
  }

  // ---------------------------------------------------------------------
  // Invariants kept between requests
  // ---------------------------------------------------------------------

  /** Ids come from one counter and are never reused. */
  predicate IdsBelow(vendors: map<Id, Vendor>, restaurants: map<Id, R.Restaurant>,
                     items: map<Id, I.Item>, packages: map<Id, P.Package>, nextId: Id)
  {
    && (forall id :: id in vendors ==> id < nextId)
    && (forall id :: id in restaurants ==> id < nextId)
    && (forall id :: id in items ==> id < nextId)
    && (forall id :: id in packages ==> id < nextId)
    && (forall id, k :: id in packages && 0 <= k < |packages[id].items| ==> packages[id].items[k] < nextId)
  }

  /** What every stored vendor satisfies: e-mail as the setters leave it,
      no plaintext credential, a pending code exactly while unverified, and
      a pending account never edited since it passed validation. */
  predicate VendorWellFormed(v: Vendor)
  {
    && IsNormalEmail(v.email)
    && Stored(v)
    && (v.isVerified <==> v.otp.None?)
    && (v.otp.None? <==> v.otpExpiry.None?)
    && (!v.isVerified ==> SchemaValid(v))
  }

  /** Every restaurant, item and package belongs to a verified vendor. */
  predicate OwnersVerified(vendors: map<Id, Vendor>, restaurants: map<Id, R.Restaurant>,
                           items: map<Id, I.Item>, packages: map<Id, P.Package>)
  {
    && (forall id :: id in restaurants ==> restaurants[id].vendorId in vendors && vendors[restaurants[id].vendorId].isVerified)
    && (forall id :: id in items ==> items[id].vendorId in vendors && vendors[items[id].vendorId].isVerified)
    && (forall id :: id in packages ==> packages[id].vendorId in vendors && vendors[packages[id].vendorId].isVerified)
  }

  /** A package lists no item twice, and every listed item that still
      exists belongs to the package's vendor. */
  predicate PackagesSound(items: map<Id, I.Item>, packages: map<Id, P.Package>)
  {
    forall id :: id in packages ==>
      && Distinct(packages[id].items)
      && forall k :: 0 <= k < |packages[id].items| && packages[id].items[k] in items ==>
           items[packages[id].items[k]].vendorId == packages[id].vendorId
  }

  /** The vendor side of the database: the four collections and the
      counter ids are drawn from. */
  datatype Db = Db(vendors: map<Id, Vendor>, restaurants: map<Id, R.Restaurant>,
                   items: map<Id, I.Item>, packages: map<Id, P.Package>, nextId: Id)

  /** Every stored vendor is well formed. */
  predicate AllWellFormed(vendors: map<Id, Vendor>)
  {
    forall id :: id in vendors ==> VendorWellFormed(vendors[id])
  }

  /** What holds of the database between any two requests. */
  predicate Inv(db: Db)
  {
    && IdsBelow(db.vendors, db.restaurants, db.items, db.packages, db.nextId)
    && UniqueEmails(db.vendors)
    && AllWellFormed(db.vendors)
    && OneRestaurantPerVendor(db.restaurants)
    && OwnersVerified(db.vendors, db.restaurants, db.items, db.packages)
    && PackagesSound(db.items, db.packages)
  }

  /** The database once a vendor's account is closed: the vendor is gone,
      and so are its restaurant, its items and its packages. */
  function WithoutAccount(db: Db, id: Id): Db
  {
    Db(db.vendors - {id},
       db.restaurants - RestaurantIdsOf(db.restaurants, id),
       db.items - ItemsOf(db.items, id).Keys,
       db.packages - PackagesOf(db.packages, id).Keys,
       db.nextId)
  }

  /** A vendor's package listing shows only that vendor's items. */
  lemma {:induction false} PopulateOwned(items: map<Id, I.Item>, vendorId: Id, refs: seq<Id>)
    requires forall k :: 0 <= k < |refs| && refs[k] in items ==> items[refs[k]].vendorId == vendorId
    ensures forall k :: 0 <= k < |Populate(items, refs)| ==> Populate(items, refs)[k].vendorId == vendorId
  {
    if refs != [] {
      PopulateOwned(items, vendorId, refs[1..]);
    }
  }

  // ---------------------------------------------------------------------
  // Profile updates
  // ---------------------------------------------------------------------

  /** `updatedFields` of `updateVendor`: the fields the body names. */
  datatype ProfilePatch = ProfilePatch(name: Option<string>, phoneNumber: Option<string>, address: Option<string>)

  /** A body field counts when it is given, non-empty (truthy) and differs
      from the stored value. */
  function Differs(given: Option<string>, stored: string): (kept: Option<string>)
    ensures kept.Some? <==> given.Some? && given.value != "" && given.value != stored
    ensures kept.Some? ==> kept == given
  {
    if given.Some? && given.value != "" && given.value != stored then given else None
  }

  function Changes(v: Vendor, b: ProfileBody): ProfilePatch
  {
    ProfilePatch(Differs(b.name, v.name), Differs(b.phoneNumber, v.phoneNumber), Differs(b.address, v.address))
  }

  predicate IsEmptyPatch(p: ProfilePatch)
  {
    p.name.None? && p.phoneNumber.None? && p.address.None?
  }

  /** `Vendor.updateOne({ email }, updatedFields)`: the named fields are
      replaced through their `trim` setters and no validator runs; the
      e-mail, the credentials and the verification state stay. */
  function ApplyPatch(v: Vendor, p: ProfilePatch): (w: Vendor)
    ensures w.(name := v.name, phoneNumber := v.phoneNumber, address := v.address) == v
    ensures w.name == (if p.name.Some? then Trim(p.name.value) else v.name)
    ensures w.phoneNumber == (if p.phoneNumber.Some? then Trim(p.phoneNumber.value) else v.phoneNumber)
    ensures w.address == (if p.address.Some? then Trim(p.address.value) else v.address)
  {
    v.(name := if p.name.Some? then Trim(p.name.value) else v.name,
       phoneNumber := if p.phoneNumber.Some? then Trim(p.phoneNumber.value) else v.phoneNumber,
       address := if p.address.Some? then Trim(p.address.value) else v.address)
  }

  /** Sending the same profile body twice: when the given fields carry no
      surrounding white space the second request finds nothing to change. */
  lemma RepeatedUpdateChangesNothing(v: Vendor, b: ProfileBody)
    requires b.name.Some? ==> Trim(b.name.value) == b.name.value
    requires b.phoneNumber.Some? ==> Trim(b.phoneNumber.value) == b.phoneNumber.value
    requires b.address.Some? ==> Trim(b.address.value) == b.address.value
    ensures IsEmptyPatch(Changes(ApplyPatch(v, Changes(v, b)), b))
  {
  }

  /** A name sent with surrounding white space is stored trimmed, so the
      comparison with the stored value never settles: every resubmission
      counts as a change. */
  lemma PaddedNameNeverSettles(v: Vendor, b: ProfileBody)
    requires Trim(v.name) == v.name
    requires b.name.Some? && Trim(b.name.value) != b.name.value
    ensures !IsEmptyPatch(Changes(ApplyPatch(v, Changes(v, b)), b))
  {
    var n := b.name.value;
    assert n != "" && n != v.name;
  }
}
