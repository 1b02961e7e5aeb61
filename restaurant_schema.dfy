/** The Restaurant document (backend/models/Restaurant.js). Its `vendorId`
    is unique, so a vendor has at most one restaurant; the store keeps that
    as part of its invariant. */
module RestaurantSchema {
  import opened Common
  import opened Strings
  import opened VendorRoutes

  datatype Restaurant = Restaurant(
    vendorId: Id,
    name: string,
    address: string,
    phone: string,
    operatingHours: string)

  /** The validators Mongoose runs when a new restaurant is saved. */
  predicate SchemaValid(r: Restaurant)
  {
    r.name != "" && r.address != "" && IsIndianPhone(r.phone) && r.operatingHours != ""
  }

  /** A phone number the pattern accepts has nothing for `trim` to strip. */
  lemma PhoneIsTrimmed(s: string)
    requires IsIndianPhone(s)
    ensures Trim(s) == s
  {
    TrimAt(s, 0, |s|);
  }

  /** `new Restaurant({ name, address, phone, operatingHours, vendorId })`
      after the `trim` setters. */
  function NewRestaurant(vendorId: Id, b: RestaurantBody): (r: Restaurant)
    requires RestaurantCreateErrors(b) == []
    ensures r.vendorId == vendorId && r.phone == b.phone.value
    ensures r.name == Trim(b.name.value) && r.address == Trim(b.address.value)
    ensures r.operatingHours == Trim(b.operatingHours.value)
  {
    PhoneIsTrimmed(b.phone.value);
    Restaurant(vendorId, Trim(b.name.value), Trim(b.address.value), Trim(b.phone.value),
               Trim(b.operatingHours.value))
  }

  /** A body the create route accepts yields a document the schema accepts
      exactly when no text field is white space only. */
  lemma CreateRouteMeetsSchema(vendorId: Id, b: RestaurantBody)
    requires RestaurantCreateErrors(b) == []
    ensures SchemaValid(NewRestaurant(vendorId, b)) <==>
      Trim(b.name.value) != "" && Trim(b.address.value) != "" && Trim(b.operatingHours.value) != ""
  {
  }

  /** `findOneAndUpdate({ vendorId }, { name, address, phone,
      operatingHours })`: present fields replace, missing fields stay. */
  function ApplyUpdate(r: Restaurant, b: RestaurantBody): (s: Restaurant)
    requires RestaurantUpdateErrors(b) == []
    ensures s.vendorId == r.vendorId
    ensures s.name == (if b.name.Some? then Trim(b.name.value) else r.name)
    ensures s.address == (if b.address.Some? then Trim(b.address.value) else r.address)
    ensures s.phone == (if b.phone.Some? then b.phone.value else r.phone)
    ensures s.operatingHours == (if b.operatingHours.Some? then Trim(b.operatingHours.value) else r.operatingHours)
  {
    var phone := if b.phone.Some? then (PhoneIsTrimmed(b.phone.value); Trim(b.phone.value)) else r.phone;
    Restaurant(r.vendorId,
               if b.name.Some? then Trim(b.name.value) else r.name,
               if b.address.Some? then Trim(b.address.value) else r.address,
               phone,
               if b.operatingHours.Some? then Trim(b.operatingHours.value) else r.operatingHours)
  }
}
