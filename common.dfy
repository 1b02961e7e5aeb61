/** Shared vocabulary of the marketplace backend: record ids, the millisecond
    clock, the one-time code, an idealised bcrypt, and the closed set of user
    roles. */
module Common {

  datatype Option<+T> = None | Some(value: T)

  /** A MongoDB ObjectId. The stores hand them out from a counter, so an id is
      never reused once its record is deleted. */
  type Id = nat

  /** Milliseconds since the epoch, as `Date.now()` returns them. */
  type Millis = nat

  /** How long an issued one-time code stays valid: `10 * 60 * 1000` ms. */
  const OtpWindow: nat := 10 * 60 * 1000

  /** The expiry written next to a freshly issued code. */
  function OtpExpiry(now: Millis): (expiry: Millis)
    ensures expiry > now
  {
    now + OtpWindow
  }

  /** `otpExpiry < new Date()`: the comparison is strict, so a code presented
      at the very millisecond of its expiry is still accepted. */
  predicate Expired(expiry: Millis, now: Millis)
  {
    expiry < now
  }

  /** A code issued at `issued` is good for exactly ten minutes: accepted at
      the last millisecond of the window, refused ten minutes and one second
      after issue. */
  lemma ExpiryWindow(issued: Millis, now: Millis)
    ensures !Expired(OtpExpiry(issued), now) <==> now <= issued + 600000
    ensures Expired(OtpExpiry(issued), issued + 601000)
  {
  }

  // ---------------------------------------------------------------------
  // One-time codes: `crypto.randomInt(100000, 999999).toString()`
  // ---------------------------------------------------------------------

  /** Lowest and highest code `crypto.randomInt(100000, 999999)` can return;
      its upper bound is exclusive. */
  const OtpLow: nat := 100000
  const OtpHigh: nat := 999998

  function Pow10(k: nat): (p: nat)
    ensures p >= 1
  {
    if k == 0 then 1 else 10 * Pow10(k - 1)
  }

  predicate IsDigit(c: char)
  {
    '0' <= c <= '9'
  }

  function DigitChar(d: nat): (c: char)
    requires d < 10
    ensures IsDigit(c) && c as int - '0' as int == d
  {
    ('0' as int + d) as char
  }

  /** The last `width` decimal digits of `n`, most significant first. */
  function Digits(n: nat, width: nat): (s: string)
    ensures |s| == width
    ensures forall k :: 0 <= k < |s| ==> IsDigit(s[k])
  {
    if width == 0 then [] else Digits(n / 10, width - 1) + [DigitChar(n % 10)]
  }

  /** Reads a string of decimal digits back as a number. */
  function DecimalValue(s: string): nat
    requires forall k :: 0 <= k < |s| ==> IsDigit(s[k])
  {
    if s == [] then 0
    else 10 * DecimalValue(s[..|s| - 1]) + DigitValue(s[|s| - 1])
  }

  function DigitValue(c: char): (d: nat)
    requires IsDigit(c)
    ensures d < 10
  {
    c as int - '0' as int
  }

  /** Reading back what `Digits` wrote gives the number, whenever it fits. */
  lemma {:induction false} DigitsRoundTrip(n: nat, width: nat)
    requires n < Pow10(width)
    ensures DecimalValue(Digits(n, width)) == n
  {
    if width > 0 {
      var s := Digits(n, width);
      assert s[..|s| - 1] == Digits(n / 10, width - 1);
      DigitsRoundTrip(n / 10, width - 1);
    }
  }

  /** The decimal text of a code in `OtpLow..OtpHigh`: `toString()` of a
      six-digit number. */
  function OtpText(code: nat): (otp: string)
    requires OtpLow <= code <= OtpHigh
    ensures |otp| == 6 && otp[0] != '0'
    ensures forall k :: 0 <= k < 6 ==> IsDigit(otp[k])
    ensures DecimalValue(otp) == code
  {
    var s := Digits(code, 6);
    DigitsRoundTrip(code, 6);
    LeadingDigitNonZero(code);
    s
  }

  lemma LeadingDigitNonZero(code: nat)
    requires OtpLow <= code <= OtpHigh
    ensures Digits(code, 6)[0] != '0'
  {
    var s := Digits(code, 6);
    DigitsRoundTrip(code, 6);
    FirstDigitBound(s);
    assert Pow10(5) == 100000;
  }

  /** A digit string whose first digit is `0` is below `10^(|s|-1)`. */
  lemma {:induction false} FirstDigitBound(s: string)
    requires |s| >= 1
    requires forall k :: 0 <= k < |s| ==> IsDigit(s[k])
    ensures s[0] == '0' ==> DecimalValue(s) < Pow10(|s| - 1)
  {
    if |s| > 1 {
      var init := s[..|s| - 1];
      assert init[0] == s[0];
      FirstDigitBound(init);
    }
  }

  /** `generateOTP`: the random draw comes in as `draw`, the code is its
      representative in `OtpLow..OtpHigh`, sent and stored as six digits. */
  function GenerateOtp(draw: nat): (otp: string)
    ensures |otp| == 6 && forall k :: 0 <= k < 6 ==> IsDigit(otp[k])
    ensures OtpLow <= DecimalValue(otp) <= OtpHigh
  {
    OtpText(OtpLow + draw % (OtpHigh - OtpLow + 1))
  }

  /** Every code in the range can be drawn, and distinct draws in the range
      give distinct codes, so a resent code differs from the old one exactly
      when the draws differ. */
  lemma {:induction false} GenerateOtpOnto(code: nat)
    requires OtpLow <= code <= OtpHigh
    ensures DecimalValue(GenerateOtp(code - OtpLow)) == code
  {
    assert (code - OtpLow) % (OtpHigh - OtpLow + 1) == code - OtpLow;
  }

  lemma OtpTextInjective(a: nat, b: nat)
    requires OtpLow <= a <= OtpHigh && OtpLow <= b <= OtpHigh
    ensures OtpText(a) == OtpText(b) <==> a == b
  {
  }

  // ---------------------------------------------------------------------
  // bcrypt, idealised
  // ---------------------------------------------------------------------

  /** A bcrypt hash. The model treats bcrypt as an ideal commitment: the only
      thing that can be learnt from a digest is whether a candidate matches
      it, and exactly one plaintext does. `salt` stands for the random salt
      `bcrypt.hash(_, 10)` draws. */
  datatype Digest = Digest(preimage: string, salt: nat)

  function Hash(plain: string, salt: nat): (d: Digest)
    ensures Matches(plain, d)
  {
    Digest(plain, salt)
  }

  /** `bcrypt.compare(plain, digest)`. */
  predicate Matches(plain: string, d: Digest)
  {
    d.preimage == plain
  }

  /** Whatever the salt, a hash accepts its own plaintext and nothing else. */
  lemma HashAcceptsOnlyItsPlaintext(plain: string, candidate: string, salt: nat)
    ensures Matches(candidate, Hash(plain, salt)) <==> candidate == plain
  {
  }

  // ---------------------------------------------------------------------
  // Roles
  // ---------------------------------------------------------------------

  /** The user roles `['user', 'vendor', 'deliverypartner', 'admin']`. */
  datatype Role = UserRole | VendorRole | DeliveryPartner | Admin

  function RoleName(r: Role): string
  {
    match r
    case UserRole => "user"
    case VendorRole => "vendor"
    case DeliveryPartner => "deliverypartner"
    case Admin => "admin"
  }

  /** `['user', 'vendor', 'deliverypartner', 'admin'].includes(role)`. */
  function ParseRole(s: string): (r: Option<Role>)
    ensures r.Some? <==> s in ["user", "vendor", "deliverypartner", "admin"]
    ensures r.Some? ==> RoleName(r.value) == s
  {
    if s == "user" then Some(UserRole)
    else if s == "vendor" then Some(VendorRole)
    else if s == "deliverypartner" then Some(DeliveryPartner)
    else if s == "admin" then Some(Admin)
    else None
  }

  lemma RoleNameRoundTrip(r: Role)
    ensures ParseRole(RoleName(r)) == Some(r)
  {
  }
}
