/** The request bodies of the vendor API and the express-validator rule
    lists its routes attach (backend/routes/VendorRoutes.js). A rule list
    yields the errors `validationResult(req)` collects, in declaration order;
    `validate` answers 400 with them and stops the request when any is
    there. The handlers run the same check again at their top, so the
    controller model applies it itself. */
module VendorRoutes {
  import opened Common
  import opened Strings
  import opened JsNumbers

  datatype FieldError = FieldError(field: string, message: string)

  /** An entry of a package's `items` array: a well-formed ObjectId, or text
      that `mongoose.Types.ObjectId.isValid` rejects. */
  datatype ItemRef = Ref(id: Id) | Malformed(text: string)

  datatype RegisterBody = RegisterBody(
    name: Option<string>, email: Option<string>, password: Option<string>,
    phoneNumber: Option<string>, address: Option<string>)

  /** The body of `/login` and `/delete`: `{ email, password }`. */
  datatype Credentials = Credentials(email: Option<string>, password: Option<string>)

  datatype OtpBody = OtpBody(email: Option<string>, otp: Option<string>)

  datatype ProfileBody = ProfileBody(
    email: Option<string>, password: Option<string>, name: Option<string>,
    phoneNumber: Option<string>, address: Option<string>)

  datatype PasswordBody = PasswordBody(
    email: Option<string>, currentPassword: Option<string>, newPassword: Option<string>)

  datatype RestaurantBody = RestaurantBody(
    name: Option<string>, address: Option<string>, phone: Option<string>,
    operatingHours: Option<string>)

  datatype ItemBody = ItemBody(
    name: Option<string>, description: Option<string>, price: Option<Amount>,
    itemType: Option<string>, isAvailable: Option<bool>)

  datatype PackageBody = PackageBody(
    packageName: Option<string>, description: Option<string>, price: Option<Amount>,
    items: Option<seq<ItemRef>>, imageUrl: Option<string>, isActive: Option<bool>)

  /** express-validator reads a missing field as the empty string. */
  function Text(f: Option<string>): string
  {
    if f.Some? then f.value else ""
  }

  /** One rule: no error when it holds, its message when it fails. */
  function Rule(holds: bool, field: string, message: string): seq<FieldError>
  {
    if holds then [] else [FieldError(field, message)]
  }

  /** `.optional()`: a missing field passes the rule whatever it says. */
  predicate Absent<T>(f: Option<T>)
  {
    f.None?
  }

  /** A price both of its rules accept. */
  predicate PriceAccepted(a: Amount)
  {
    IsNumeric(a) && AtLeastZero(a)
  }

  /** `isNumeric()` and `custom(value => value >= 0)`: both run, each on
      its own reading of the value, so a missing price draws both
      messages while "" or "0x10" draws only the first. */
  function PriceRules(price: Option<Amount>): (errors: seq<FieldError>)
    ensures errors == [] <==> price.Some? && PriceAccepted(price.value)
    ensures |errors| == 2 <==> price.None? || (!IsNumeric(price.value) && !AtLeastZero(price.value))
  {
    Rule(price.Some? && IsNumeric(price.value), "price", "Price must be a number")
    + Rule(price.Some? && AtLeastZero(price.value), "price", "Price must be non-negative")
  }

  // ---------------------------------------------------------------------
  // Account routes
  // ---------------------------------------------------------------------

  /** POST /register. `isEmail` is express-validator's e-mail check, which
      the model does not open up. */
  function RegisterErrors(b: RegisterBody, isEmail: string -> bool): (errors: seq<FieldError>)
    ensures errors == [] <==>
      && isEmail(Text(b.email)) && ValidatorLength(Text(b.password)) >= 6 && ValidatorLength(Text(b.name)) >= 3
      && IsIndianPhone(Text(b.phoneNumber)) && Text(b.address) != ""
  {
    Rule(isEmail(Text(b.email)), "email", "Valid email is required")
    + Rule(ValidatorLength(Text(b.password)) >= 6, "password", "Password must be at least 6 characters")
    + Rule(ValidatorLength(Text(b.name)) >= 3, "name", "Name must be at least 3 characters")
    + Rule(IsIndianPhone(Text(b.phoneNumber)), "phoneNumber", "Invalid Indian phone number format")
    + Rule(Text(b.address) != "", "address", "Address is required")
  }

  /** POST /verify-otp. */
  function VerifyOtpErrors(b: OtpBody, isEmail: string -> bool): (errors: seq<FieldError>)
    ensures errors == [] <==> isEmail(Text(b.email)) && Text(b.otp) != ""
  {
    Rule(isEmail(Text(b.email)), "email", "Valid email is required")
    + Rule(Text(b.otp) != "", "otp", "OTP is required")
  }

  /** POST /resend-otp. */
  function ResendOtpErrors(email: Option<string>, isEmail: string -> bool): (errors: seq<FieldError>)
    ensures errors == [] <==> isEmail(Text(email))
  {
    Rule(isEmail(Text(email)), "email", "Valid email is required")
  }

  /** POST /login and DELETE /delete share one rule list. */
  function CredentialsErrors(b: Credentials, isEmail: string -> bool): (errors: seq<FieldError>)
    ensures errors == [] <==> isEmail(Text(b.email)) && Text(b.password) != ""
  {
    Rule(isEmail(Text(b.email)), "email", "Valid email is required")
    + Rule(Text(b.password) != "", "password", "Password is required")
  }

  /** PUT /update: the profile fields are optional, but when present must
      meet the registration rules. */
  function ProfileErrors(b: ProfileBody, isEmail: string -> bool): (errors: seq<FieldError>)
    ensures errors == [] <==>
      && isEmail(Text(b.email)) && Text(b.password) != ""
      && (Absent(b.name) || ValidatorLength(b.name.value) >= 3)
      && (Absent(b.phoneNumber) || IsIndianPhone(b.phoneNumber.value))
      && (Absent(b.address) || b.address.value != "")
  {
    Rule(isEmail(Text(b.email)), "email", "Valid email is required")
    + Rule(Text(b.password) != "", "password", "Password is required")
    + Rule(Absent(b.name) || ValidatorLength(b.name.value) >= 3, "name", "Name must be at least 3 characters")
    + Rule(Absent(b.phoneNumber) || IsIndianPhone(b.phoneNumber.value), "phoneNumber", "Invalid Indian phone number format")
    + Rule(Absent(b.address) || b.address.value != "", "address", "Address is required")
  }

  /** PUT /update-password. */
  function PasswordErrors(b: PasswordBody, isEmail: string -> bool): (errors: seq<FieldError>)
    ensures errors == [] <==>
      isEmail(Text(b.email)) && Text(b.currentPassword) != "" && ValidatorLength(Text(b.newPassword)) >= 6
  {
    Rule(isEmail(Text(b.email)), "email", "Valid email is required")
    + Rule(Text(b.currentPassword) != "", "currentPassword", "Current password is required")
    + Rule(ValidatorLength(Text(b.newPassword)) >= 6, "newPassword", "New password must be at least 6 characters")
  }

  // ---------------------------------------------------------------------
  // Restaurant, item and package routes
  // ---------------------------------------------------------------------

  /** POST /restaurant. */
  function RestaurantCreateErrors(b: RestaurantBody): (errors: seq<FieldError>)
    ensures errors == [] <==>
      Text(b.name) != "" && Text(b.address) != "" && IsIndianPhone(Text(b.phone))
      && Text(b.operatingHours) != ""
  {
    Rule(Text(b.name) != "", "name", "Restaurant name is required")
    + Rule(Text(b.address) != "", "address", "Address is required")
    + Rule(IsIndianPhone(Text(b.phone)), "phone", "Invalid Indian phone number format")
    + Rule(Text(b.operatingHours) != "", "operatingHours", "Operating hours are required")
  }

  /** PUT /restaurant/:id. */
  function RestaurantUpdateErrors(b: RestaurantBody): (errors: seq<FieldError>)
    ensures errors == [] <==>
      (Absent(b.name) || b.name.value != "") && (Absent(b.address) || b.address.value != "")
      && (Absent(b.phone) || IsIndianPhone(b.phone.value))
      && (Absent(b.operatingHours) || b.operatingHours.value != "")
  {
    Rule(Absent(b.name) || b.name.value != "", "name", "Restaurant name cannot be empty")
    + Rule(Absent(b.address) || b.address.value != "", "address", "Address cannot be empty")
    + Rule(Absent(b.phone) || IsIndianPhone(b.phone.value), "phone", "Invalid Indian phone number format")
    + Rule(Absent(b.operatingHours) || b.operatingHours.value != "", "operatingHours", "Operating hours cannot be empty")
  }

  /** `isIn(['Food', 'Juice'])`. */
  predicate IsItemTypeName(s: string)
  {
    s == "Food" || s == "Juice"
  }

  /** POST /item. */
  function ItemCreateErrors(b: ItemBody): (errors: seq<FieldError>)
    ensures errors == [] <==>
      && Text(b.name) != ""
      && (Absent(b.description) || ValidatorLength(b.description.value) <= 500)
      && b.price.Some? && PriceAccepted(b.price.value)
      && IsItemTypeName(Text(b.itemType))
  {
    Rule(Text(b.name) != "", "name", "Item name is required")
    + Rule(Absent(b.description) || ValidatorLength(b.description.value) <= 500, "description", "Description must not exceed 500 characters")
    + PriceRules(b.price)
    + Rule(IsItemTypeName(Text(b.itemType)), "type", "Type must be Food or Juice")
  }

  /** PUT /item/:id: the same rules, each one optional. */
  function ItemUpdateErrors(b: ItemBody): (errors: seq<FieldError>)
    ensures errors == [] <==>
      && (Absent(b.name) || b.name.value != "")
      && (Absent(b.description) || ValidatorLength(b.description.value) <= 500)
      && (Absent(b.price) || PriceAccepted(b.price.value))
      && (Absent(b.itemType) || IsItemTypeName(b.itemType.value))
  {
    Rule(Absent(b.name) || b.name.value != "", "name", "Item name is required")
    + Rule(Absent(b.description) || ValidatorLength(b.description.value) <= 500, "description", "Description must not exceed 500 characters")
    + (if Absent(b.price) then [] else PriceRules(b.price))
    + Rule(Absent(b.itemType) || IsItemTypeName(b.itemType.value), "type", "Type must be Food or Juice")
  }

  /** GET /items/search: `query('query').notEmpty()`. */
  function SearchErrors(query: Option<string>): (errors: seq<FieldError>)
    ensures errors == [] <==> Text(query) != ""
  {
    Rule(Text(query) != "", "query", "Search query is required")
  }

  /** POST /breakfast-package: `items` must be a non-empty array. */
  function PackageCreateErrors(b: PackageBody): (errors: seq<FieldError>)
    ensures errors == [] <==>
      && Text(b.packageName) != ""
      && (Absent(b.description) || ValidatorLength(b.description.value) <= 500)
      && b.price.Some? && PriceAccepted(b.price.value)
      && b.items.Some? && |b.items.value| >= 1
  {
    Rule(Text(b.packageName) != "", "packageName", "Package name is required")
    + Rule(Absent(b.description) || ValidatorLength(b.description.value) <= 500, "description", "Description must not exceed 500 characters")
    + PriceRules(b.price)
    + Rule(b.items.Some? && |b.items.value| >= 1, "items", "Items must be a non-empty array")
  }

  /** PUT /breakfast-package/:id: `items` optional, non-empty when given. */
  function PackageUpdateErrors(b: PackageBody): (errors: seq<FieldError>)
    ensures errors == [] <==>
      && (Absent(b.packageName) || b.packageName.value != "")
      && (Absent(b.description) || ValidatorLength(b.description.value) <= 500)
      && (Absent(b.price) || PriceAccepted(b.price.value))
      && (Absent(b.items) || |b.items.value| >= 1)
  {
    Rule(Absent(b.packageName) || b.packageName.value != "", "packageName", "Package name is required")
    + Rule(Absent(b.description) || ValidatorLength(b.description.value) <= 500, "description", "Description must not exceed 500 characters")
    + (if Absent(b.price) then [] else PriceRules(b.price))
    + Rule(Absent(b.items) || |b.items.value| >= 1, "items", "Items must be a non-empty array")
  }

  /** `isLength` does not count the emoji presentation selector U+FE0F, so
      "abcd❤️", six characters, is one short of a valid password. */
  lemma SelectorPasswordTooShort(b: RegisterBody, isEmail: string -> bool)
    requires b.password == Some("abcd\U{2764}\U{FE0F}")
    ensures |b.password.value| == 6 && ValidatorLength(b.password.value) == 5
    ensures FieldError("password", "Password must be at least 6 characters") in RegisterErrors(b, isEmail)
  {
    var p := b.password.value;
    assert p[..5] == "abcd\U{2764}" && p[..5][..4] == "abcd";
    assert "abcd"[..3] == "abc" && "abc"[..2] == "ab" && "ab"[..1] == "a" && "a"[..0] == [];
  }
}
