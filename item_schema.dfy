/** The Item document (backend/models/Item.js): a menu entry owned by one
    vendor. */
module ItemSchema {
  import opened Common
  import opened Strings
  import opened VendorRoutes
  import opened JsNumbers

  /** `enum: ['Food', 'Juice']`. */
  datatype ItemType = Food | Juice

  function ParseItemType(s: string): (t: Option<ItemType>)
    ensures t.Some? <==> IsItemTypeName(s)
    ensures t == Some(Food) <==> s == "Food"
  {
    if s == "Food" then Some(Food) else if s == "Juice" then Some(Juice) else None
  }

  /** An item document. `vendorId` is required, so every item has an owner. */
  datatype Item = Item(
    vendorId: Id,
    name: string,
    description: Option<string>,
    price: real,
    itemType: ItemType,
    isAvailable: bool)

  /** The validators Mongoose runs when a new item is saved: the name is
      required (after trimming), the description at most 500 UTF-16 code
      units, the price at least 0. */
  predicate SchemaValid(i: Item)
  {
    i.name != "" && (i.description.Some? ==> Utf16Length(i.description.value) <= 500) && i.price >= 0.0
  }

  /** The trimmed form of an optional text field. */
  function TrimField(f: Option<string>): (g: Option<string>)
    ensures g.Some? <==> f.Some?
    ensures f.Some? ==> |g.value| <= |f.value|
  {
    if f.Some? then Some(Trim(f.value)) else None
  }

  /** `new Item({ name, description, price, type, isAvailable, vendorId })`
      from a body the route accepted, after the `trim` setters;
      `isAvailable` defaults to `true`. */
  function NewItem(vendorId: Id, b: ItemBody): (i: Item)
    requires ItemCreateErrors(b) == []
    ensures i.vendorId == vendorId && i.price == PriceValue(b.price.value) && i.price >= 0.0
    ensures i.name == Trim(b.name.value)
    ensures i.description == TrimField(b.description)
    ensures i.itemType == Food <==> b.itemType.value == "Food"
    ensures i.isAvailable <==> (b.isAvailable.None? || b.isAvailable.value)
  {
    AcceptedPriceNonNegative(b.price.value);
    Item(vendorId, Trim(b.name.value), TrimField(b.description), PriceValue(b.price.value),
         ParseItemType(b.itemType.value).value,
         if b.isAvailable.Some? then b.isAvailable.value else true)
  }

  /** A body the create route accepts yields a document the schema accepts
      exactly when the trimmed name is not empty and the trimmed
      description fits in 500 UTF-16 code units: the route's `notEmpty()`
      lets "   " through, and its `isLength` counts an astral character
      once where `maxlength` counts it twice. */
  lemma CreateRouteMeetsSchema(vendorId: Id, b: ItemBody)
    requires ItemCreateErrors(b) == []
    ensures SchemaValid(NewItem(vendorId, b)) <==>
      Trim(b.name.value) != "" && (b.description.None? || Utf16Length(Trim(b.description.value)) <= 500)
  {
  }

  /** A description of 251 emoji passes the route's 500-character limit
      and fails the schema's: `save()` throws and nothing is stored. */
  lemma AstralDescriptionRefused(vendorId: Id)
    ensures var b := ItemBody(Some("Idli"), Some(seq(251, k => '\U{1F600}')), Some(JsonNumber(40.0)),
                              Some("Food"), None);
      ItemCreateErrors(b) == [] && !SchemaValid(NewItem(vendorId, b))
  {
    var d := seq(251, k => '\U{1F600}');
    AstralText(d);
    TrimAt("Idli", 0, 4);
  }

  /** Text made only of characters outside the Basic Multilingual Plane:
      `isLength` counts each once, `maxlength` twice, and `trim` keeps it. */
  lemma AstralText(d: string)
    requires forall k :: 0 <= k < |d| ==> d[k] == '\U{1F600}'
    ensures ValidatorLength(d) == |d| && Utf16Length(d) == 2 * |d| && Trim(d) == d
  {
    assert forall k :: 0 <= k < |d| ==> IsAstral(d[k]) && !IsVariationSelector(d[k]) && !IsSpace(d[k]);
    TrimAt(d, 0, |d|);
  }

  /** `findOneAndUpdate(filter, { name, description, price, type,
      isAvailable })`: the fields present in the body replace the stored
      ones (through the setters); missing fields stay; the owner never
      changes. No validator runs on this path. */
  function ApplyUpdate(i: Item, b: ItemBody): (j: Item)
    requires ItemUpdateErrors(b) == []
    ensures j.vendorId == i.vendorId
    ensures j.name == (if b.name.Some? then Trim(b.name.value) else i.name)
    ensures j.description == (if b.description.Some? then TrimField(b.description) else i.description)
    ensures j.price == (if b.price.Some? then PriceValue(b.price.value) else i.price)
    ensures j.price >= 0.0 || j.price == i.price
    ensures j.isAvailable == (if b.isAvailable.Some? then b.isAvailable.value else i.isAvailable)
    ensures b.itemType.None? ==> j.itemType == i.itemType
    ensures b.itemType.Some? ==> ParseItemType(b.itemType.value).Some? && j.itemType == ParseItemType(b.itemType.value).value
  {
    var price := if b.price.Some? then (AcceptedPriceNonNegative(b.price.value); PriceValue(b.price.value)) else i.price;
    Item(i.vendorId,
         if b.name.Some? then Trim(b.name.value) else i.name,
         if b.description.Some? then TrimField(b.description) else i.description,
         price,
         if b.itemType.Some? then ParseItemType(b.itemType.value).value else i.itemType,
         if b.isAvailable.Some? then b.isAvailable.value else i.isAvailable)
  }
}
