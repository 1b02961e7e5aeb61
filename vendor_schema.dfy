/** The Vendor document (backend/models/Vendor.js): its setters, the checks
    Mongoose runs when a new document is saved, the pre-save hook that
    hashes the password and the one-time code, and `comparePassword`. */
module VendorSchema {
  import opened Common
  import opened Strings

  /** A credential field as the document holds it: plaintext from the
      moment a handler assigns it until the pre-save hook runs, a bcrypt
      hash from then on. */
  datatype Secret = Plain(text: string) | Hashed(digest: Digest)

  /** A vendor document. Its `role` is not kept: the schema's enum allows
      only `'vendor'`, which is also the default. */
  datatype Vendor = Vendor(
    name: string,
    email: string,
    password: Secret,
    phoneNumber: string,
    address: string,
    otp: Option<Secret>,
    otpExpiry: Option<Millis>,
    isVerified: bool)

  /** The e-mail as the schema stores and queries it: `trim: true` and
      `lowercase: true`. */
  function NormalEmail(email: string): string
  {
    Lower(Trim(email))
  }

  /** An address the setters leave as it is: no white space at either end
      and no upper-case letter. */
  predicate IsNormalEmail(e: string)
  {
    && (e == [] || (!IsSpace(e[0]) && !IsSpace(e[|e| - 1])))
    && forall k :: 0 <= k < |e| ==> !IsUpper(e[k])
  }

  /** The setters leave every address normalised. */
  lemma NormalEmailIsNormal(email: string)
    ensures IsNormalEmail(NormalEmail(email))
  {
    var t := Trim(email);
    TrimStrips(email);
    var l := Lower(t);
    assert forall k :: 0 <= k < |l| ==> (IsSpace(l[k]) <==> IsSpace(t[k]));
  }

  /** A normalised address is its own normal form, so a stored e-mail is
      found by the query built from it. */
  lemma NormalOfNormal(e: string)
    requires IsNormalEmail(e)
    ensures NormalEmail(e) == e
  {
    TrimAt(e, 0, |e|);
    assert Lower(e) == e;
  }

  /** Normalising twice is normalising once. */
  lemma NormalEmailIdempotent(email: string)
    ensures NormalEmail(NormalEmail(email)) == NormalEmail(email)
  {
    NormalEmailIsNormal(email);
    NormalOfNormal(NormalEmail(email));
  }

  /** `new Vendor({ name, email, password, phoneNumber, address, otp,
      otpExpiry })`: the setters have run, nothing is hashed yet, and
      `isVerified` takes its default, `false`. */
  function Draft(name: string, email: string, password: string, phoneNumber: string,
                 address: string, otp: string, otpExpiry: Millis): (doc: Vendor)
    ensures doc.password == Plain(password) && doc.otp == Some(Plain(otp))
    ensures doc.otpExpiry == Some(otpExpiry) && !doc.isVerified
  {
    Vendor(Trim(name), NormalEmail(email), Plain(password), Trim(phoneNumber),
           Trim(address), Some(Plain(otp)), Some(otpExpiry), false)
  }

  /** The schema's validators on a document about to be saved: `required`,
      `minlength` and `match`, checked after the setters and before the
      hook, so a new password is measured as plaintext. A password that is
      already a bcrypt hash (60 characters) always meets the minimum. */
  predicate SchemaValid(doc: Vendor)
  {
    && Utf16Length(doc.name) >= 3
    && IsEmailShaped(doc.email)
    && (doc.password.Plain? ==> Utf16Length(doc.password.text) >= 6)
    && IsIndianPhone(doc.phoneNumber)
    && doc.address != ""
  }

  /** What the store keeps: no plaintext credential. */
  predicate Stored(v: Vendor)
  {
    v.password.Hashed? && (v.otp.Some? ==> v.otp.value.Hashed?)
  }

  /** `bcrypt.compare` against a credential field; a field that is not a
      bcrypt hash matches nothing. */
  predicate SecretMatches(candidate: string, s: Secret)
  {
    s.Hashed? && Matches(candidate, s.digest)
  }

  /** The `pre('save')` hook. The password is hashed again only when it was
      modified; the code only when it was modified and is non-empty, so
      clearing it stores no hash. */
  function PreSave(doc: Vendor, passwordModified: bool, otpModified: bool, salt: nat): (saved: Vendor)
    requires passwordModified ==> doc.password.Plain?
    requires otpModified && doc.otp.Some? ==> doc.otp.value.Plain?
    ensures passwordModified ==> saved.password.Hashed?
    ensures passwordModified ==> forall p {:trigger SecretMatches(p, saved.password)} ::
      SecretMatches(p, saved.password) <==> p == doc.password.text
    ensures !passwordModified ==> saved.password == doc.password
    ensures otpModified && doc.otp.Some? && doc.otp.value.text != "" ==>
      saved.otp.Some? && saved.otp.value.Hashed?
      && forall c {:trigger SecretMatches(c, saved.otp.value)} ::
           SecretMatches(c, saved.otp.value) <==> c == doc.otp.value.text
    ensures otpModified ==> (saved.otp.None? <==> doc.otp.None?)
    ensures !otpModified ==> saved.otp == doc.otp
    ensures saved.(password := doc.password, otp := doc.otp) == doc
  {
    var withPassword :=
      if passwordModified then doc.(password := Hashed(Hash(doc.password.text, salt))) else doc;
    if otpModified && doc.otp.Some? && doc.otp.value.text != ""
    then withPassword.(otp := Some(Hashed(Hash(doc.otp.value.text, salt))))
    else withPassword
  }

  /** Saving a document whose modified secrets are plaintext, with a
      non-empty code, and whose other secrets are already hashed leaves no
      plaintext in the store. */
  lemma PreSaveStoresNoPlaintext(doc: Vendor, passwordModified: bool, otpModified: bool, salt: nat)
    requires passwordModified ==> doc.password.Plain?
    requires otpModified && doc.otp.Some? ==> doc.otp.value.Plain? && doc.otp.value.text != ""
    requires !passwordModified ==> doc.password.Hashed?
    requires !otpModified && doc.otp.Some? ==> doc.otp.value.Hashed?
    ensures Stored(PreSave(doc, passwordModified, otpModified, salt))
  {
  }

  /** `vendorSchema.methods.comparePassword`. */
  predicate ComparePassword(v: Vendor, candidate: string)
  {
    SecretMatches(candidate, v.password)
  }

  /** A password saved through the hook is accepted by `comparePassword`
      exactly when the candidate is that password. */
  lemma ComparePasswordAfterSave(doc: Vendor, otpModified: bool, salt: nat, candidate: string)
    requires doc.password.Plain?
    requires otpModified && doc.otp.Some? ==> doc.otp.value.Plain?
    ensures ComparePassword(PreSave(doc, true, otpModified, salt), candidate)
            <==> candidate == doc.password.text
  {
  }
}
