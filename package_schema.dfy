/** The Package document (backend/models/Package.js): a breakfast package,
    a priced bundle of the vendor's items. */
module PackageSchema {
  import opened Common
  import opened Strings
  import opened VendorRoutes
  import opened JsNumbers
  import ItemSchema

  /** A package document. `items` holds Item ids, in the order given. */
  datatype Package = Package(
    vendorId: Id,
    packageName: string,
    description: Option<string>,
    price: real,
    items: seq<Id>,
    imageUrl: string,
    isActive: bool)

  /** The schema's default for `isActive`. */
  const DefaultIsActive := false

  /** The validators Mongoose runs when a new package is saved: the name is
      required (after trimming), the description at most 500 UTF-16 code
      units, the price at least 0. */
  predicate SchemaValid(p: Package)
  {
    p.packageName != "" && (p.description.Some? ==> Utf16Length(p.description.value) <= 500) && p.price >= 0.0
  }

  /** `new Package({ packageName, description, price: Number(price), items,
      imageUrl: imageUrl || '', isActive: true, vendorId })`: the handler
      sets `isActive` itself, so the schema default never applies and a
      requested `isActive` is ignored. */
  function NewPackage(vendorId: Id, b: PackageBody, ids: seq<Id>): (p: Package)
    requires PackageCreateErrors(b) == []
    ensures p.vendorId == vendorId && p.items == ids
    ensures p.price == PriceValue(b.price.value) && p.price >= 0.0
    ensures p.packageName == Trim(b.packageName.value)
    ensures p.description == ItemSchema.TrimField(b.description)
    ensures p.isActive && p.isActive != DefaultIsActive
    ensures p.imageUrl == Trim(Text(b.imageUrl))
  {
    AcceptedPriceNonNegative(b.price.value);
    Package(vendorId, Trim(b.packageName.value), ItemSchema.TrimField(b.description),
            PriceValue(b.price.value), ids, Trim(Text(b.imageUrl)), true)
  }

  /** A body the create route accepts yields a document the schema accepts
      exactly when the trimmed name is not empty and the trimmed
      description fits in 500 UTF-16 code units. */
  lemma CreateRouteMeetsSchema(vendorId: Id, b: PackageBody, ids: seq<Id>)
    requires PackageCreateErrors(b) == []
    ensures SchemaValid(NewPackage(vendorId, b, ids)) <==>
      Trim(b.packageName.value) != "" && (b.description.None? || Utf16Length(Trim(b.description.value)) <= 500)
  {
  }

  /** `findOneAndUpdate(filter, { packageName, description, price, items,
      imageUrl, isActive })`: present fields replace, missing fields stay,
      the owner never changes. `ids` is the checked item list when the body
      has one. */
  function ApplyUpdate(p: Package, b: PackageBody, ids: Option<seq<Id>>): (q: Package)
    requires PackageUpdateErrors(b) == []
    ensures q.vendorId == p.vendorId
    ensures q.items == (if ids.Some? then ids.value else p.items)
    ensures q.packageName == (if b.packageName.Some? then Trim(b.packageName.value) else p.packageName)
    ensures q.description == (if b.description.Some? then ItemSchema.TrimField(b.description) else p.description)
    ensures q.price == (if b.price.Some? then PriceValue(b.price.value) else p.price)
    ensures q.price >= 0.0 || q.price == p.price
    ensures q.imageUrl == (if b.imageUrl.Some? then Trim(b.imageUrl.value) else p.imageUrl)
    ensures q.isActive == (if b.isActive.Some? then b.isActive.value else p.isActive)
  {
    var price := if b.price.Some? then (AcceptedPriceNonNegative(b.price.value); PriceValue(b.price.value)) else p.price;
    Package(p.vendorId,
            if b.packageName.Some? then Trim(b.packageName.value) else p.packageName,
            if b.description.Some? then ItemSchema.TrimField(b.description) else p.description,
            price,
            if ids.Some? then ids.value else p.items,
            if b.imageUrl.Some? then Trim(b.imageUrl.value) else p.imageUrl,
            if b.isActive.Some? then b.isActive.value else p.isActive)
  }
}
