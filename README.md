# Breadbox backend: accounts, guards and vendor ownership in Dafny

This project models the account and ownership core of the Breadbox food
marketplace backend (Node.js, Express, Mongoose). The backend serves two
kinds of principal: end users and vendors. The model covers:

- **Vendor controller** (`vendorController.js`): register with a mailed
  one-time code, verify it, resend it, log in, update the profile, change
  the password, and close the account with a cascade over the vendor's
  restaurant, items and breakfast packages. It also covers the
  ownership-scoped create/read/update/delete handlers for those three
  record kinds.
- **User controller** (`authcontroller.js`): the same account life cycle
  with a role. The code is compared as plaintext. Account deletion has no
  cascade. `adminStats` counts users by role.
- **The two request guards**: `vendor_auth.js` and `authmiddleware.js`
  (including `restrictTo`).
- **The record schemas**: `Vendor.js` with its pre-save hashing hook,
  plus `Item.js`, `Package.js` and `Restaurant.js`.
- **The route validators**: `VendorRoutes.js`.

The database is a set of in-memory maps keyed by id, with one id counter.
The two controllers are classes (`VendorController.VendorStore`,
`UserController.UserStore`) whose handlers change those maps in place.
Each handler runs its checks step by step, as the JavaScript does. Each is
proved to leave exactly the state, and give exactly the answer, of a
value-level function in `VendorHandlers` or `UserHandlers`. Each is also
proved to keep the store invariant, `VendorState.Inv` or `UserState.Inv`.
The handler functions classify every answer by the state they were given,
usually as an if-and-only-if. Lemmas in `VendorInvariant`, `UserInvariant`
and `VendorLifecycle` tie the requests together: register then verify then
log in, a code is good once, a resend invalidates the old code, a new
password replaces the old one, and closing an account removes exactly that
account.

Foreign libraries and the environment are modelled as follows:

- **bcrypt** is an ideal commitment. `Hash(p, salt)` accepts `p` and
  nothing else.
- **jsonwebtoken**: the guards take `verify` as a parameter, and
  `SignVerifies` states the round trip `jwt.verify(jwt.sign(c)) == c`.
- **`crypto.randomInt`** is a `draw: nat` parameter. It is mapped onto
  100000..999998.
- **The clock** is a `now: Millis` parameter.
- **express-validator's `isEmail`** is a parameter `isEmail: string -> bool`.
- **Mail sending** is a `mailed: bool` parameter. A failed send makes the
  handler answer 500 after its database write has already happened.

Behaviours of the code that the model keeps as they are:

- **User one-time code.** The user controller stores the code unhashed and
  compares it in plaintext (`authcontroller.js:65`). The vendor controller
  hashes it in the pre-save hook and compares with bcrypt
  (`vendorController.js:67`).
- **Expired codes.** Both controllers answer an expired code and a wrong
  code with the same 400 "Invalid or expired OTP" (`vendorController.js:68`,
  `authcontroller.js:65`).
- **Unverified users.** The user guard lets an unverified user through
  (`authmiddleware.js:15-19`); only the user handlers themselves check
  `isVerified`. The vendor guard refuses an unverified vendor
  (`vendor_auth.js:15-19`).
- **Status codes.** The controllers answer an unknown account with 400.
  Only a missing restaurant, item or package gets 404.
- **Two string lengths.** The route's `isLength` counts characters other
  than U+FE0E and U+FE0F; the schema's `maxlength` and `minlength` count
  UTF-16 code units. A description of 251 emoji passes the route and then
  fails `save()` with 500 (`ItemSchema.AstralDescriptionRefused`), and the
  password "abcd❤️" is refused as shorter than 6
  (`VendorRoutes.SelectorPasswordTooShort`).
- **Price coercion.** `custom((value) => value >= 0)` compares the raw
  value, so a string is converted by StringToNumber first: "", " ",
  "0x10" and "Infinity" pass it, and a blank price collects only the
  "Price must be a number" error. `isNumeric` reads a number through its
  string form, so 1e21 and 1e-7 are refused.
- **Duplicate registration.** Registration looks the e-mail up and then
  inserts (`vendorController.js:36-43`, `authcontroller.js:35-42`); the
  model is sequential (see "Left out").

## Model

| member | source | states |
|---|---|---|
| Common.OtpExpiry | backend/controllers/vendorController.js:40 | the expiry written with a fresh code lies after the issue time |
| Common.ExpiryWindow | backend/controllers/vendorController.js:68 | `otpExpiry < now` is strict: a code is accepted up to and including issue + 600000 ms and refused at issue + 10 min 1 s |
| Common.GenerateOtp | backend/controllers/vendorController.js:24 | the code is six decimal digits whose value lies in 100000..999998 (the upper bound of `randomInt` is exclusive) |
| Common.GenerateOtpOnto | backend/controllers/authcontroller.js:17 | every code in 100000..999998 can be drawn |
| Common.OtpText | backend/controllers/vendorController.js:24 | `toString()` of a code in range: six digits, no leading zero, reading back to the code |
| Common.OtpTextInjective | backend/controllers/authcontroller.js:17 | distinct codes have distinct texts, so a reissued code differs from the old one exactly when the draw differs |
| Common.DigitsRoundTrip | backend/controllers/vendorController.js:24 | the decimal text of a number reads back as that number |
| Common.Hash | backend/models/Vendor.js:56-60 | a bcrypt hash matches its own plaintext |
| Common.HashAcceptsOnlyItsPlaintext | backend/models/Vendor.js:65-67 | `bcrypt.compare(c, hash(p))` holds exactly when `c == p`, whatever the salt |
| Common.ParseRole | backend/controllers/authcontroller.js:31 | a role string is accepted exactly when it is one of user, vendor, deliverypartner, admin |
| Common.RoleNameRoundTrip | backend/controllers/authcontroller.js:31 | every role's name parses back to that role |
| Strings.Trim | backend/models/Vendor.js:8 | `trim()` never lengthens a string |
| Strings.TrimStrips | backend/models/Vendor.js:8 | `trim()` removes white space at both ends and nowhere else |
| Strings.TrimUnique | backend/models/Vendor.js:8 | any string stripped that way from `s` is `trim(s)` |
| Strings.TrimIdempotent | backend/models/Item.js:12 | trimming twice is trimming once |
| Strings.Lower | backend/models/Vendor.js:16 | `toLowerCase()` keeps the length and leaves no upper-case letter, changing only upper-case ones |
| Strings.LowerIdempotent | backend/models/Vendor.js:16 | lower-casing twice is lower-casing once |
| Strings.SplitSpace | backend/middleware/vendor_auth.js:7 | `split(' ')` gives at least one piece and no piece holds a space |
| Strings.SplitThenJoin | backend/middleware/vendor_auth.js:7 | joining the pieces of `split(' ')` with spaces gives back the header |
| Strings.JoinThenSplit | backend/middleware/authmiddleware.js:9 | splitting space-free pieces joined by spaces gives back the pieces |
| Strings.EmailShapeParts | backend/models/Vendor.js:17 | `/^\S+@\S+\.\S+$/` accepts three non-empty space-free words joined by `@` and `.` |
| Strings.Utf16Length | backend/models/Item.js:17 | the length Mongoose's `maxlength` and `minlength` measure, in UTF-16 code units: between the number of characters and twice it, equal to it exactly when no character lies outside the Basic Multilingual Plane, twice it exactly when every one does |
| Strings.ValidatorLength | backend/routes/VendorRoutes.js:147 | the length `isLength` measures: the characters other than the variation selectors U+FE0E and U+FE0F, so at most the number of characters, and equal to it exactly when no selector occurs |
| Strings.ValidatorLengthAtMostUtf16 | backend/routes/VendorRoutes.js:147 | `isLength` never counts more than the schema's length does |
| Tokens.BearerToken | backend/middleware/vendor_auth.js:6-11 | a token is found exactly when the header's second space-separated piece is non-empty, and a found token holds no space |
| Tokens.BearerTokenOfHeader | backend/middleware/authmiddleware.js:9-11 | `Bearer <token>` yields exactly that token |
| Tokens.BareTokenIsMissing | backend/middleware/authmiddleware.js:9-11 | a header without a space carries no token |
| Tokens.DoubleSpaceIsMissing | backend/middleware/vendor_auth.js:7-11 | two spaces after the scheme leave an empty piece, so no token |
| VendorAuth.AuthenticateVendor | backend/middleware/vendor_auth.js:5-30 | no token gives 401; a failed verify gives 403, with the expiry message exactly for an expired token; it passes exactly for a token naming a stored verified vendor, and any other decoded token gets 401 "Vendor not found or unverified"; `req.vendor` is read from the stored record |
| VendorAuth.LoginTokenAuthenticates | backend/middleware/vendor_auth.js:14-21 | a verified vendor's login token passes, and the principal shows the stored name, not the signed one |
| VendorAuth.UserTokenDenied | backend/middleware/vendor_auth.js:15-19 | a user token never passes the vendor guard |
| VendorAuth.UnverifiedVendorDenied | backend/middleware/vendor_auth.js:15-19 | a correctly signed token of an unverified vendor is refused with 401 "Vendor not found or unverified" |
| AuthMiddleware.AuthenticateUser | backend/middleware/authmiddleware.js:5-26 | no token gives 401; any verify failure gives 403; it passes exactly for a token whose `_id` names a stored user, verified or not, and any other decoded token gets 401 "User not found"; `req.user` is `{_id, email, name, role}` as stored |
| AuthMiddleware.RestrictTo | backend/middleware/authmiddleware.js:29-36 | passes exactly when `req.user` is set and its role is allowed, otherwise 403 |
| AuthMiddleware.LoginTokenAuthenticates | backend/middleware/authmiddleware.js:14-21 | a user's login token passes and yields the stored principal |
| AuthMiddleware.VendorTokenDenied | backend/middleware/authmiddleware.js:15-19 | a vendor token never passes the user guard |
| AuthMiddleware.AdminGate | backend/middleware/authmiddleware.js:29-36 | guard then `restrictTo('admin')` opens exactly to a token naming a stored user whose stored role is admin |
| JsNumbers.UnpointedZero | backend/routes/VendorRoutes.js:148 | a numeral's digits read as zero exactly when every digit is 0 |
| JsNumbers.NumeralIsJsDecimal | backend/routes/VendorRoutes.js:148 | a numeral `isNumeric` accepts is a decimal literal to StringToNumber, with no exponent, and is zero to it exactly when its digits are all 0 |
| JsNumbers.NumericTextIsTrimmed | backend/routes/VendorRoutes.js:148 | a text `isNumeric` accepts has no white space for StringToNumber to trim |
| JsNumbers.NumericTextSignAgrees | backend/routes/VendorRoutes.js:148 | on a text `isNumeric` accepts, the coerced `value >= 0` holds exactly when the number stored is not negative, values taken as exact ("-0" passes, "-1.5" does not) |
| JsNumbers.AcceptedPriceNonNegative | backend/models/Item.js:19-22 | a price both rules accept is stored as a number that is not negative |
| JsNumbers.BlankCoercedButNotNumeric | backend/routes/VendorRoutes.js:148 | "" and " " pass `value >= 0` (they coerce to 0) but not `isNumeric` |
| JsNumbers.HexCoercedButNotNumeric | backend/routes/VendorRoutes.js:148 | "0x10" passes `value >= 0` but not `isNumeric` |
| JsNumbers.InfinityCoercedButNotNumeric | backend/routes/VendorRoutes.js:148 | "Infinity" passes `value >= 0` but not `isNumeric` |
| JsNumbers.ExponentFormNotNumeric | backend/routes/VendorRoutes.js:148 | the numbers 1e21 and 1e-7, printed with an exponent, fail `isNumeric` though they are at least 0 |
| VendorRoutes.RegisterErrors | backend/routes/VendorRoutes.js:20-30 | no error exactly when the e-mail is valid, the password has an `isLength` of at least 6 and the name at least 3, the phone matches `^[6-9]\d{9}$` and the address is non-empty |
| VendorRoutes.VerifyOtpErrors | backend/routes/VendorRoutes.js:33-40 | no error exactly when the e-mail is valid and the code is non-empty |
| VendorRoutes.ResendOtpErrors | backend/routes/VendorRoutes.js:43-49 | no error exactly when the e-mail is valid |
| VendorRoutes.CredentialsErrors | backend/routes/VendorRoutes.js:52-59 | no error exactly when the e-mail is valid and the password non-empty |
| VendorRoutes.ProfileErrors | backend/routes/VendorRoutes.js:65-76 | the profile fields are optional but, when present, meet the registration rules (a name of `isLength` at least 3) |
| VendorRoutes.PasswordErrors | backend/routes/VendorRoutes.js:79-88 | no error exactly when the e-mail is valid, the current password given and the new one of `isLength` at least 6 |
| VendorRoutes.SelectorPasswordTooShort | backend/routes/VendorRoutes.js:24 | "abcd❤️" is six characters but `isLength` counts 5, so registration refuses it as too short |
| VendorRoutes.RestaurantCreateErrors | backend/routes/VendorRoutes.js:105-115 | name, address and hours non-empty and the phone matching the pattern |
| VendorRoutes.RestaurantUpdateErrors | backend/routes/VendorRoutes.js:123-133 | the same rules, each optional |
| VendorRoutes.PriceRules | backend/routes/VendorRoutes.js:148 | no error exactly when the price is given, `isNumeric` accepts its string form and `value >= 0` holds under JavaScript's coercion (on exact values); two errors exactly when it is missing or fails both, so a blank string gets one error, not two |
| VendorRoutes.ItemCreateErrors | backend/routes/VendorRoutes.js:142-153 | no error exactly when the name is non-empty, the description has an `isLength` of at most 500, both price rules accept the price and the type is Food or Juice |
| VendorRoutes.ItemUpdateErrors | backend/routes/VendorRoutes.js:155-166 | the same rules (`isLength`, `isNumeric` and the coerced `value >= 0`), each optional |
| VendorRoutes.SearchErrors | backend/routes/VendorRoutes.js:168-175 | no error exactly when the query is non-empty |
| VendorRoutes.PackageCreateErrors | backend/routes/VendorRoutes.js:178-190 | no error exactly when the name is non-empty, the description has an `isLength` of at most 500, both price rules accept the price and `items` is a non-empty array |
| VendorRoutes.PackageUpdateErrors | backend/routes/VendorRoutes.js:192-204 | the same rules (`isLength`, `isNumeric` and the coerced `value >= 0`), each optional; `items` non-empty when given |
| VendorSchema.NormalEmailIsNormal | backend/models/Vendor.js:11-18 | the `trim` and `lowercase` setters leave an address with no outer white space and no capital |
| VendorSchema.NormalOfNormal | backend/models/Vendor.js:15-16 | a normalised address is its own normal form |
| VendorSchema.NormalEmailIdempotent | backend/models/Vendor.js:15-16 | normalising twice is normalising once |
| VendorSchema.Draft | backend/models/Vendor.js:42-45 | a new document holds plaintext secrets and `isVerified` false |
| VendorSchema.PreSave | backend/models/Vendor.js:54-62 | the password is re-hashed only when modified; the code only when modified and non-empty; each hash accepts exactly the plaintext it replaced; nothing else changes |
| VendorSchema.PreSaveStoresNoPlaintext | backend/models/Vendor.js:54-62 | a save leaves no plaintext credential in the store |
| VendorSchema.ComparePasswordAfterSave | backend/models/Vendor.js:65-67 | after the hook, `comparePassword(c)` holds exactly when `c` is the saved password |
| ItemSchema.ParseItemType | backend/models/Item.js:24-28 | the type is accepted exactly when it is Food or Juice |
| ItemSchema.NewItem | backend/models/Item.js:3-32 | a new item has its owner, the trimmed name, the trimmed description and the type; its price is the number the accepted price denotes and is not negative; `isAvailable` defaults to true |
| ItemSchema.CreateRouteMeetsSchema | backend/models/Item.js:9-23 | a body the route accepts passes the schema exactly when the trimmed name is non-empty and the trimmed description fits in 500 UTF-16 code units |
| ItemSchema.AstralDescriptionRefused | backend/models/Item.js:17 | a description of 251 emoji passes the route's `isLength` (251) but not the schema's `maxlength` (502 code units), so `save()` fails after validation |
| ItemSchema.ApplyUpdate | backend/controllers/vendorController.js:417-421 | present fields, the item type included, replace stored ones through the setters; absent ones stay; the owner never changes |
| PackageSchema.NewPackage | backend/controllers/vendorController.js:504-512 | a new package has its owner, the trimmed name, the trimmed description and the checked ids; its price is the number the accepted price denotes and is not negative; `isActive` is true, overriding the schema default (backend/models/Package.js:35-38) |
| PackageSchema.CreateRouteMeetsSchema | backend/models/Package.js:9-23 | a body the route accepts passes the schema exactly when the trimmed name is non-empty and the trimmed description fits in 500 UTF-16 code units |
| PackageSchema.ApplyUpdate | backend/controllers/vendorController.js:557-561 | present fields (name, description, price, image URL, active flag) replace stored ones, the item list only when given; absent ones stay; the owner never changes |
| RestaurantSchema.PhoneIsTrimmed | backend/models/Restaurant.js:20-25 | a phone matching the pattern has nothing for `trim` to strip |
| RestaurantSchema.NewRestaurant | backend/models/Restaurant.js:3-32 | a new restaurant belongs to the acting vendor, holds the trimmed name, address and hours, and keeps the phone as given |
| RestaurantSchema.CreateRouteMeetsSchema | backend/models/Restaurant.js:10-30 | a body the route accepts passes the schema exactly when no text field is white space only |
| RestaurantSchema.ApplyUpdate | backend/controllers/vendorController.js:326-330 | present fields replace stored ones; the owner never changes |
| VendorState.FindByEmail | backend/controllers/vendorController.js:36 | `findOne({ email })` finds the one vendor with that e-mail, or reports that there is none |
| VendorState.RestaurantOf | backend/controllers/vendorController.js:301 | `findOne({ vendorId })` finds the vendor's restaurant or reports none |
| VendorState.OnlyRestaurant | backend/models/Restaurant.js:4-9 | with the unique index, a vendor's restaurants are exactly the one `findOne` finds |
| VendorState.ItemsOf | backend/controllers/vendorController.js:396 | `Item.find({ vendorId })` is exactly the vendor's items |
| VendorState.PackagesOf | backend/controllers/vendorController.js:527-529 | `Package.find({ vendorId })` is exactly the vendor's packages |
| VendorState.OwnedAmong | backend/controllers/vendorController.js:499 | `Item.find({ _id: { $in: items }, vendorId })` is the set of listed ids naming the vendor's items |
| VendorState.ToSetSize | backend/controllers/vendorController.js:500 | a list has as many distinct ids as entries exactly when none repeats |
| VendorState.OwnershipCount | backend/controllers/vendorController.js:499-502 | `validItems.length === items.length` holds exactly when every listed id names the vendor's item and none repeats |
| VendorState.Populate | backend/controllers/vendorController.js:529 | `populate('items')` shows at most one item per id, and one per id when all exist |
| VendorState.PopulateShows | backend/controllers/vendorController.js:529 | an item is shown exactly when some listed id names it and still exists |
| VendorState.PopulateAppend | backend/controllers/vendorController.js:529 | populating keeps the list's order: two parts show the first part's items, then the second's |
| VendorState.PopulateOwned | backend/controllers/vendorController.js:523-534 | a package listing shows only the vendor's own items |
| VendorState.Differs | backend/controllers/vendorController.js:169-172 | a field is written exactly when given, non-empty and different from the stored value |
| VendorState.ApplyPatch | backend/controllers/vendorController.js:178 | `updateOne` writes only the named fields through `trim`; e-mail, credentials and verification stay |
| VendorState.RepeatedUpdateChangesNothing | backend/controllers/vendorController.js:169-176 | resending an untrimmed-clean profile body finds nothing to change |
| VendorState.PaddedNameNeverSettles | backend/controllers/vendorController.js:169-178 | a name sent with outer white space is stored trimmed, so every resubmission counts as a change |
| VendorHandlers.Status | backend/controllers/vendorController.js:27-591 | each failure's HTTP status: 401 for token/e-mail mismatch, 404 for missing records, 500 for thrown errors, 400 otherwise |
| VendorHandlers.AfterMail | backend/controllers/vendorController.js:45-50 | success exactly when the mail was sent; a failed send answers 500 |
| VendorHandlers.GuardAuthenticates | backend/middleware/vendor_auth.js:15-21 | whatever the guard lets through is a stored verified vendor |
| VendorHandlers.MarkVerified | backend/controllers/vendorController.js:72-74 | verification sets `isVerified` and clears the code and its expiry, nothing else |
| VendorHandlers.Register | backend/controllers/vendorController.js:27-51 | validation errors give 400; an existing normalised e-mail gives "exists"; otherwise a schema-valid draft is stored, hashed, under the next id, unverified, with the drawn code and expiry now + 600000; otherwise nothing changes |
| VendorHandlers.VerifyOtp | backend/controllers/vendorController.js:54-81 | fails without change for an unknown vendor, a verified one, or a code that does not match the stored hash or has expired; on success only that vendor is marked verified |
| VendorHandlers.ResendOtp | backend/controllers/vendorController.js:84-107 | only an existing unverified vendor gets a new hashed code and expiry; otherwise nothing changes |
| VendorHandlers.Login | backend/controllers/vendorController.js:110-138 | claims `{vendorId, email, name}` exactly for an existing vendor whose password matches and who is verified; the password is checked before verification |
| VendorHandlers.AccountOf | backend/controllers/vendorController.js:159-164 | 401 unless `req.vendor.email` equals the body's e-mail; "not found" exactly when no vendor has it |
| VendorHandlers.ActorAccount | backend/controllers/vendorController.js:159-164 | behind the guard the body's e-mail finds the acting vendor's own record |
| VendorHandlers.UpdateVendor | backend/controllers/vendorController.js:150-185 | a wrong password is refused; no differing field gives "No changes provided" and no change; otherwise only the differing fields are written |
| VendorHandlers.UpdatePassword | backend/controllers/vendorController.js:188-216 | a wrong current password is refused; on success the stored hash accepts exactly the new password |
| VendorHandlers.DeleteAccount | backend/controllers/vendorController.js:219-249 | with the right password the vendor, its restaurant, items and packages are removed and nothing else; otherwise nothing changes |
| VendorHandlers.Dashboard | backend/controllers/vendorController.js:252-258 | the greeting ends with the acting vendor's name |
| VendorHandlers.AddRestaurant | backend/controllers/vendorController.js:261-292 | a vendor with a restaurant is refused; otherwise a schema-valid restaurant is stored under the next id |
| VendorHandlers.GetRestaurant | backend/controllers/vendorController.js:295-310 | returns the acting vendor's restaurant, or 404 when it has none |
| VendorHandlers.UpdateRestaurant | backend/controllers/vendorController.js:313-339 | updates the acting vendor's own restaurant whatever `:id` says; 404 when it has none |
| VendorHandlers.DeleteRestaurant | backend/controllers/vendorController.js:342-357 | removes exactly the acting vendor's restaurants; 404 when it has none |
| VendorHandlers.AddItem | backend/controllers/vendorController.js:360-387 | a schema-valid item owned by the acting vendor is stored under the next id |
| VendorHandlers.GetItems | backend/controllers/vendorController.js:390-401 | exactly the acting vendor's items |
| VendorHandlers.UpdateItem | backend/controllers/vendorController.js:404-430 | succeeds exactly for an item of the acting vendor, changing only that item; a malformed id throws (500) |
| VendorHandlers.DeleteItem | backend/controllers/vendorController.js:433-451 | removes exactly one item of the acting vendor, or changes nothing |
| VendorHandlers.SearchItems | backend/controllers/vendorController.js:454-477 | an empty query is refused by the route validator; with a text index on items the answer is exactly the acting vendor's matching items, and without one the `$text` query fails with 500 |
| VendorHandlers.RefIds | backend/controllers/vendorController.js:494 | the ids of a list of well-formed ObjectIds, in order |
| VendorHandlers.AddPackage | backend/controllers/vendorController.js:480-520 | a malformed id gives 400; unless every id names a distinct item of the acting vendor the request is refused before anything is stored; it succeeds exactly when every id names a distinct item of the acting vendor and the schema accepts the package, which is then stored active under the next id |
| VendorHandlers.GetPackages | backend/controllers/vendorController.js:523-534 | exactly the acting vendor's packages, each shown with the populated list of its existing items, in order, all the vendor's own |
| VendorHandlers.UpdatePackage | backend/controllers/vendorController.js:537-570 | the ownership check applies only when `items` is given; a malformed entry in `items`, or a malformed package id once the check passes, answers 500; a missing or foreign package answers 404 exactly when the check passes; succeeds exactly for a package of the acting vendor |
| VendorHandlers.DeletePackage | backend/controllers/vendorController.js:573-591 | removes exactly one package of the acting vendor, or changes nothing |
| VendorInvariant.InvWithin | backend/controllers/vendorController.js:238-242 | dropping records keeps the invariant once every remaining record still has a verified owner |
| VendorInvariant.OwnersAfterAccountRemoved | backend/controllers/vendorController.js:238-242 | after the cascade no remaining record is orphaned |
| VendorInvariant.VendorAdded | backend/controllers/vendorController.js:42-43 | inserting a well-formed vendor under a fresh id and unused e-mail keeps the invariant |
| VendorInvariant.VendorReplaced | backend/controllers/vendorController.js:72-75 | re-saving a vendor with the same e-mail, verified if it was, keeps the invariant |
| VendorInvariant.AccountRemoved | backend/controllers/vendorController.js:238-242 | the cascade keeps the invariant |
| VendorInvariant.RestaurantAdded | backend/models/Restaurant.js:4-9 | adding a verified vendor's first restaurant keeps one restaurant per vendor |
| VendorInvariant.RestaurantReplaced | backend/controllers/vendorController.js:326-330 | updating a restaurant without changing its owner keeps the invariant |
| VendorInvariant.ItemAdded | backend/models/Item.js:4-8 | adding an item owned by a verified vendor keeps the invariant |
| VendorInvariant.ItemRemoved | backend/controllers/vendorController.js:439-442 | deleting an item keeps the invariant, though packages keep its id |
| VendorInvariant.PackageAdded | backend/controllers/vendorController.js:499-514 | adding a package of distinct own items keeps the invariant |
| VendorInvariant.PackageReplaced | backend/controllers/vendorController.js:550-561 | updating a package keeps the invariant when its list is unchanged or again the owner's own distinct items |
| VendorInvariant.RegisteredWellFormed | backend/models/Vendor.js:54-62 | a registration that passes validation stores a normalised e-mail, hashed credentials and a pending code |
| VendorInvariant.RegisterKeeps | backend/controllers/vendorController.js:27-51 | registration keeps the invariant |
| VendorInvariant.VerifyOtpKeeps | backend/controllers/vendorController.js:54-81 | verification keeps the invariant |
| VendorInvariant.VerifyOtpSaves | backend/controllers/vendorController.js:72-75 | the save in `verifyOTP` never fails validation |
| VendorInvariant.ResendOtpKeeps | backend/controllers/vendorController.js:84-107 | a resend keeps the invariant |
| VendorInvariant.ResendOtpSaves | backend/controllers/vendorController.js:97-100 | the save in `resendOTP` never fails validation |
| VendorInvariant.UpdateVendorWrites | backend/controllers/vendorController.js:150-185 | a profile update that writes anything writes only the acting vendor's patch |
| VendorInvariant.UpdateVendorKeeps | backend/controllers/vendorController.js:150-185 | a profile update behind the guard keeps the invariant |
| VendorInvariant.UpdatePasswordWrites | backend/controllers/vendorController.js:188-216 | a password change that writes anything writes only the acting vendor's new hash |
| VendorInvariant.UpdatePasswordKeeps | backend/controllers/vendorController.js:188-216 | a password change behind the guard keeps the invariant |
| VendorInvariant.DeleteAccountKeeps | backend/controllers/vendorController.js:219-249 | account deletion keeps the invariant |
| VendorInvariant.AddRestaurantKeeps | backend/controllers/vendorController.js:261-292 | adding a restaurant keeps the invariant |
| VendorInvariant.UpdateRestaurantKeeps | backend/controllers/vendorController.js:313-339 | updating a restaurant keeps the invariant |
| VendorInvariant.DeleteRestaurantKeeps | backend/controllers/vendorController.js:342-357 | deleting a restaurant keeps the invariant |
| VendorInvariant.AddItemKeeps | backend/controllers/vendorController.js:360-387 | adding an item keeps the invariant |
| VendorInvariant.UpdateItemKeeps | backend/controllers/vendorController.js:404-430 | updating an item keeps the invariant |
| VendorInvariant.DeleteItemKeeps | backend/controllers/vendorController.js:433-451 | deleting an item keeps the invariant |
| VendorInvariant.AddPackageKeeps | backend/controllers/vendorController.js:480-520 | adding a package keeps the invariant |
| VendorInvariant.UpdatePackageKeeps | backend/controllers/vendorController.js:537-570 | updating a package keeps the invariant |
| VendorInvariant.DeletePackageKeeps | backend/controllers/vendorController.js:573-591 | deleting a package keeps the invariant |
| VendorLifecycle.VerifyPending | backend/controllers/vendorController.js:63-75 | a pending vendor presenting an accepted code is verified and no other record changes |
| VendorLifecycle.VerifiedLogsIn | backend/controllers/vendorController.js:119-132 | a verified vendor logs in exactly with a password its hash accepts; any other is "Incorrect password" |
| VendorLifecycle.RegisterThenVerify | backend/controllers/vendorController.js:27-138 | the mailed code verifies a new account within ten minutes, and the registered password then logs in |
| VendorLifecycle.VerifyTwiceRefused | backend/controllers/vendorController.js:63-74 | a code is good once: the second attempt finds the account already verified |
| VendorLifecycle.ResendInvalidatesOldCode | backend/controllers/vendorController.js:93-100 | after a resend any other code, the previous one included, is refused |
| VendorLifecycle.NewPasswordReplacesOld | backend/controllers/vendorController.js:188-216 | after a password change the new password logs in and any other is refused |
| VendorLifecycle.DeleteRemovesOnlyTheAccount | backend/controllers/vendorController.js:238-242 | closing an account leaves nothing owned by the vendor and every other vendor's records as they were |
| VendorLifecycle.WithoutAccountRemovesOnly | backend/controllers/vendorController.js:238-242 | the cascade leaves no vendor, restaurant, item or package of the closed account, and every other record as it was |
| VendorLifecycle.ForeignItemNotFound | backend/controllers/vendorController.js:417-445 | another vendor's item answers "not found" to update and delete, and nothing changes |
| VendorLifecycle.ForeignPackageNotFound | backend/controllers/vendorController.js:557-584 | another vendor's package answers "not found" to update and delete, and nothing changes |
| VendorLifecycle.ForeignItemInPackageRefused | backend/controllers/vendorController.js:499-502 | a package listing another vendor's item is refused before anything is stored |
| VendorController.VendorStore.constructor | backend/models/Vendor.js:69 | the four collections start empty, which satisfies the invariant |
| VendorController.VendorStore.InsertVendor | backend/controllers/vendorController.js:42-43 | `save()` of a new vendor adds it under the next id and keeps the invariant |
| VendorController.VendorStore.PutVendor | backend/controllers/vendorController.js:72-75 | re-saving a vendor changes only that record and keeps the invariant |
| VendorController.VendorStore.InsertRestaurant | backend/controllers/vendorController.js:279-286 | adds the restaurant under the next id, keeping the invariant |
| VendorController.VendorStore.PutRestaurant | backend/controllers/vendorController.js:326-330 | replaces one restaurant, keeping the invariant |
| VendorController.VendorStore.RemoveRestaurant | backend/controllers/vendorController.js:348 | removes one restaurant, keeping the invariant |
| VendorController.VendorStore.InsertItem | backend/controllers/vendorController.js:373-381 | adds the item under the next id, keeping the invariant |
| VendorController.VendorStore.PutItem | backend/controllers/vendorController.js:417-421 | replaces one item, keeping the invariant |
| VendorController.VendorStore.RemoveItem | backend/controllers/vendorController.js:439-442 | removes one item, keeping the invariant |
| VendorController.VendorStore.InsertPackage | backend/controllers/vendorController.js:504-514 | adds the package under the next id, keeping the invariant |
| VendorController.VendorStore.PutPackage | backend/controllers/vendorController.js:557-561 | replaces one package, keeping the invariant |
| VendorController.VendorStore.RemovePackage | backend/controllers/vendorController.js:579-582 | removes one package, keeping the invariant |
| VendorController.VendorStore.Register | backend/controllers/vendorController.js:27-51 | the step-by-step handler leaves exactly the state and answer of `VendorHandlers.Register` and keeps the invariant |
| VendorController.VendorStore.VerifyOtp | backend/controllers/vendorController.js:54-81 | agrees with `VendorHandlers.VerifyOtp` and keeps the invariant |
| VendorController.VendorStore.ResendOtp | backend/controllers/vendorController.js:84-107 | agrees with `VendorHandlers.ResendOtp` and keeps the invariant |
| VendorController.VendorStore.UpdateVendor | backend/controllers/vendorController.js:150-185 | builds `updatedFields` key by key, one field per given, non-empty, differing value, and agrees with `VendorHandlers.UpdateVendor`, keeping the invariant |
| VendorController.VendorStore.UpdatePassword | backend/controllers/vendorController.js:188-216 | agrees with `VendorHandlers.UpdatePassword` and keeps the invariant |
| VendorController.VendorStore.DeleteAccount | backend/controllers/vendorController.js:219-249 | agrees with `VendorHandlers.DeleteAccount` and keeps the invariant |
| VendorController.VendorStore.RemoveAccount | backend/controllers/vendorController.js:238-242 | the four deletions in sequence leave exactly the database without the account |
| VendorController.VendorStore.AddRestaurant | backend/controllers/vendorController.js:261-292 | agrees with `VendorHandlers.AddRestaurant` and keeps the invariant |
| VendorController.VendorStore.UpdateRestaurant | backend/controllers/vendorController.js:313-339 | agrees with `VendorHandlers.UpdateRestaurant` and keeps the invariant |
| VendorController.VendorStore.DeleteRestaurant | backend/controllers/vendorController.js:342-357 | agrees with `VendorHandlers.DeleteRestaurant` and keeps the invariant |
| VendorController.VendorStore.AddItem | backend/controllers/vendorController.js:360-387 | agrees with `VendorHandlers.AddItem` and keeps the invariant |
| VendorController.VendorStore.UpdateItem | backend/controllers/vendorController.js:404-430 | agrees with `VendorHandlers.UpdateItem` and keeps the invariant |
| VendorController.VendorStore.DeleteItem | backend/controllers/vendorController.js:433-451 | agrees with `VendorHandlers.DeleteItem` and keeps the invariant |
| VendorController.VendorStore.AddPackage | backend/controllers/vendorController.js:480-520 | agrees with `VendorHandlers.AddPackage` and keeps the invariant |
| VendorController.VendorStore.UpdatePackage | backend/controllers/vendorController.js:537-570 | agrees with `VendorHandlers.UpdatePackage` and keeps the invariant |
| VendorController.VendorStore.DeletePackage | backend/controllers/vendorController.js:573-591 | agrees with `VendorHandlers.DeletePackage` and keeps the invariant |
| UserState.FindUser | backend/controllers/authcontroller.js:35 | `User.findOne({ email })` finds the one user with that e-mail, or reports that there is none |
| UserState.UsersWithRole | backend/controllers/authcontroller.js:259-261 | the users grouped under a role are exactly those holding it |
| UserState.RolesPartition | backend/controllers/authcontroller.js:258-261 | the per-role counts add up to the number of users |
| UserState.RoleGroups | backend/controllers/authcontroller.js:259-261 | the aggregation yields each role some user holds with its count, and nothing else |
| UserState.RoleTotalIsUserCount | backend/controllers/authcontroller.js:258-270 | a map holding exactly the non-zero role counts sums to the total |
| UserState.TallyStep | backend/controllers/authcontroller.js:267-270 | one step of the `reduce` keeps every entry equal to its role's count |
| UserState.TallyComplete | backend/controllers/authcontroller.js:267-270 | after the `reduce`, a role is a key exactly when some user holds it, and the values sum to the total |
| UserHandlers.Status | backend/controllers/authcontroller.js:20-253 | each failure's HTTP status: 401 for token/e-mail mismatch, 500 for thrown errors, 400 otherwise |
| UserHandlers.AfterMail | backend/controllers/authcontroller.js:44-49 | success exactly when the mail was sent; a failed send answers 500 |
| UserHandlers.GuardAuthenticates | backend/middleware/authmiddleware.js:15-21 | whatever the guard lets through is a stored user as stored |
| UserHandlers.Register | backend/controllers/authcontroller.js:20-50 | each refusal has its own answer, exactly when the checks before it pass: a missing field, then an e-mail without `@`, then a given role that is not one of the four; an existing e-mail gives "exists"; otherwise the user is stored unverified under the next id with a plaintext code and expiry now + 600000, role `user` by default |
| UserHandlers.MarkVerified | backend/controllers/authcontroller.js:69-71 | verification sets `isVerified` and clears the code and expiry, nothing else |
| UserHandlers.VerifyOtp | backend/controllers/authcontroller.js:53-78 | fails without change for missing fields, an unknown or verified user, or a code that differs in plaintext or has expired; on success only that user is verified |
| UserHandlers.WithNewCode | backend/controllers/authcontroller.js:93-95 | a resend replaces only the code and its expiry |
| UserHandlers.ResendOtp | backend/controllers/authcontroller.js:81-104 | only an existing unverified user gets a new code and expiry; otherwise nothing changes |
| UserHandlers.Login | backend/controllers/authcontroller.js:107-134 | claims `{_id, email, name, role}` exactly for an existing verified user whose password matches; the password is checked first |
| UserHandlers.Differs | backend/controllers/authcontroller.js:164-167 | a field is written exactly when given, non-empty and different |
| UserHandlers.ApplyPatch | backend/controllers/authcontroller.js:173 | `updateOne` writes only the named fields |
| UserHandlers.RepeatedUpdateChangesNothing | backend/controllers/authcontroller.js:164-170 | sending the same profile body twice: the second finds nothing to change |
| UserHandlers.AccountOf | backend/controllers/authcontroller.js:150-158 | 401 unless `req.user.email` equals the body's e-mail; then the missing-fields failure exactly when a required field is absent; "not found" exactly when no user has the e-mail |
| UserHandlers.ActorAccount | backend/controllers/authcontroller.js:150-158 | behind the guard the body's e-mail finds the acting user's own record |
| UserHandlers.UpdateUser | backend/controllers/authcontroller.js:146-181 | an unverified user is refused; no differing field gives "No changes provided"; otherwise only differing fields are written |
| UserHandlers.UpdatePassword | backend/controllers/authcontroller.js:184-212 | a wrong current password or an unverified account is refused; on success the stored hash accepts exactly the new password |
| UserHandlers.DeleteAccount | backend/controllers/authcontroller.js:215-244 | with the right password and a verified account only that user is removed; otherwise nothing changes |
| UserInvariant.UserAdded | backend/controllers/authcontroller.js:41-42 | inserting a user under a fresh id and unused e-mail keeps e-mails unique |
| UserInvariant.UserReplaced | backend/controllers/authcontroller.js:72 | re-saving a user with the same e-mail keeps the invariant |
| UserInvariant.UserRemoved | backend/controllers/authcontroller.js:237 | removing a user keeps the invariant |
| UserInvariant.RegisterKeeps | backend/controllers/authcontroller.js:20-50 | registration keeps the invariant |
| UserInvariant.VerifyOtpKeeps | backend/controllers/authcontroller.js:53-78 | verification keeps the invariant |
| UserInvariant.ResendOtpKeeps | backend/controllers/authcontroller.js:81-104 | a resend keeps the invariant |
| UserInvariant.UpdateUserKeeps | backend/controllers/authcontroller.js:146-181 | a profile update keeps the invariant |
| UserInvariant.UpdatePasswordKeeps | backend/controllers/authcontroller.js:184-212 | a password change keeps the invariant |
| UserInvariant.DeleteAccountKeeps | backend/controllers/authcontroller.js:215-244 | account deletion keeps the invariant |
| UserInvariant.RegisterThenVerify | backend/controllers/authcontroller.js:20-78 | a complete registration stores an unverified user whose mailed code verifies it within ten minutes |
| UserInvariant.VerifyTwiceRefused | backend/controllers/authcontroller.js:61-71 | a code is good once: the second attempt finds the user already verified |
| UserInvariant.ResendInvalidatesOldCode | backend/controllers/authcontroller.js:93-96 | after a resend any other code, the previous one included, is refused |
| UserInvariant.VerifiedUserLogsIn | backend/controllers/authcontroller.js:115-128 | a verified user with the right password gets claims naming that user |
| UserInvariant.NewPasswordReplacesOld | backend/controllers/authcontroller.js:184-212 | after a password change the new password logs in and any other is refused |
| UserInvariant.DeleteRemovesOnlyTheActor | backend/controllers/authcontroller.js:226-237 | deletion removes the acting user's record and no other, with no cascade |
| UserInvariant.SelfRegisteredAdminPassesGate | backend/controllers/authcontroller.js:31 | a user who registered as `admin`, verified and logged in passes `restrictTo('admin')` |
| UserController.UserStore.constructor | backend/controllers/authcontroller.js:2 | the user collection starts empty, which satisfies the invariant |
| UserController.UserStore.InsertUser | backend/controllers/authcontroller.js:41-42 | `save()` of a new user adds it under the next id and keeps the invariant |
| UserController.UserStore.PutUser | backend/controllers/authcontroller.js:72 | re-saving a user changes only that record and keeps the invariant |
| UserController.UserStore.RemoveUser | backend/controllers/authcontroller.js:237 | removes one user and keeps the invariant |
| UserController.UserStore.Register | backend/controllers/authcontroller.js:20-50 | the step-by-step handler agrees with `UserHandlers.Register` and keeps the invariant |
| UserController.UserStore.VerifyOtp | backend/controllers/authcontroller.js:53-78 | assigns `isVerified`, `otp` and `otpExpiry` in turn and agrees with `UserHandlers.VerifyOtp`, keeping the invariant |
| UserController.UserStore.ResendOtp | backend/controllers/authcontroller.js:81-104 | agrees with `UserHandlers.ResendOtp` and keeps the invariant |
| UserController.UserStore.UpdateUser | backend/controllers/authcontroller.js:146-181 | builds `updatedFields` key by key, one field per given, non-empty, differing value, and agrees with `UserHandlers.UpdateUser`, keeping the invariant |
| UserController.UserStore.UpdatePassword | backend/controllers/authcontroller.js:184-212 | agrees with `UserHandlers.UpdatePassword` and keeps the invariant |
| UserController.UserStore.DeleteAccount | backend/controllers/authcontroller.js:215-244 | agrees with `UserHandlers.DeleteAccount` and keeps the invariant |
| UserController.UserStore.AdminStats | backend/controllers/authcontroller.js:256-276 | `totalUsers` is the number of users; the `reduce` over the role groups gives a key exactly for each role some user holds, with its count, and the counts sum to the total |

## Left out

- Logout (vendorController.js:141-147, authcontroller.js:137-143) and the user `dashboard` (authcontroller.js:247-253): each answers a constant or a greeting and touches no state.
- backend/utils/Email.js is not part of this model. Sending is a `mailed` flag: the handler answers 500 when it fails, after the write. Templates and SMTP are not modelled.
- jsonwebtoken: signing and verification are parameters related by `SignVerifies`. Token expiry time and the secret are not modelled, and neither is the fact that login tokens carry no expiry.
- bcrypt: an ideal hash. There is no cost factor, no 72-byte truncation and no timing behaviour.
- `crypto.randomInt` is a `draw` parameter. Uniformity and independence of codes are not modelled.
- express-validator's `isEmail` is an uninterpreted parameter.
- MongoDB text search in `searchItems` (vendorController.js:465-471): whether the items collection has a text index is a `textIndex` parameter, since backend/models/Item.js declares none (without one the query fails with 500); the match itself is a `matches` parameter and its ranking is not modelled. Result order is not modelled. The listing handlers return maps, so the order of `find` and `populate` is not modelled either.
- The TTL index on `otpExpiry` (Vendor.js:40), which deletes documents in the background: no background deletion is modelled.
- Concurrency: the check-then-insert race on duplicate registration (vendorController.js:36-43, authcontroller.js:35-42) cannot arise in the sequential model. The unique index is the store invariant instead.
- backend/models/User.js is not part of this model. User fields follow their use in authcontroller.js. The password is assumed hashed on save, as `bcrypt.compare` at line 118 implies. The code is stored in plaintext. No schema validators or setters run on users.
- UserController.UserStore.AdminStats: the aggregation's group order is the fixed role order, so the order of keys in the answer is not modelled.
- Strings.Lower: `toLowerCase` is modelled on ASCII letters only.
- Request bodies hold strings or nothing. Values of other JSON types (numbers, arrays, objects where a string is expected) are not modelled, except item and package prices (a JSON number or a string), package item lists, and the booleans `isAvailable` (items) and `isActive` (packages).
- VendorRoutes.PriceRules and JsNumbers.StringAtLeastZero: `value >= 0` is decided on the exact value of the text, but JavaScript first rounds it to a double. A negative numeral smaller in magnitude than the least double (such as "-0." followed by 400 zeros and a 1) becomes -0 and passes in the code; the model refuses it. JsNumbers.NumericTextSignAgrees and JsNumbers.AcceptedPriceNonNegative hold for exact values only.
- JsNumbers.PriceValue: a price, number or text, is stored as a JavaScript double, modelled as an exact real; a positive numeral below the least double is stored as 0 by the code and as a tiny positive real here; rounding, and the digits `String(v)` prints for a number, are not modelled beyond the range in which it prints without an exponent.
- The login and read-only handlers (`login`, `getRestaurant`, `getItems`, `searchItems`, `getBreakfastPackages`, `dashboard`) change no state. They are functions, not store methods.
- backend/routes/authRoutes.js, backend/server.js and backend/config/db.js are routing and connection plumbing. Only the admin gate is stated, in `AuthMiddleware.AdminGate`.
- ApplyUpdate (items, packages, restaurants) assumes Mongoose 6 or later, which drops keys whose value is `undefined` from `findOneAndUpdate` and `updateOne`; Mongoose 5 would write them as null, and that behaviour is not modelled.
- Database failures other than validation on `save()` and cast errors on malformed ids (the 500 answers) are not modelled.
