/** The user collection behind the user controller
    (backend/controllers/authcontroller.js). backend/models/User.js is not
    part of this model: a user has the fields the controller reads and
    writes, the password is kept as a bcrypt digest (the controller checks
    it with `bcrypt.compare`), and the one-time code is kept as plain text
    (the controller compares it with `!==`). */
module UserState {
  import opened Common

  datatype User = User(
    name: string,
    email: string,
    password: Digest,
    phoneNumber: string,
    address: string,
    otp: Option<string>,
    otpExpiry: Option<Millis>,
    isVerified: bool,
    role: Role)

  datatype UserDb = UserDb(users: map<Id, User>, nextId: Id)

  /** No two users share an e-mail, so `User.findOne({ email })` has at
      most one answer. */
  predicate UniqueEmails(users: map<Id, User>)
  {
    forall a, b :: a in users && b in users && users[a].email == users[b].email ==> a == b
  }

  /** `User.findOne({ email })`: the query compares the e-mail as given. */
  function FindUser(users: map<Id, User>, email: string): (found: Option<Id>)
    requires UniqueEmails(users)
    ensures found.Some? ==> found.value in users && users[found.value].email == email
    ensures found.None? ==> forall id :: id in users ==> users[id].email != email
  {
    if exists id :: id in users && users[id].email == email then
      var id :| id in users && users[id].email == email;
      Some(id)
    else
      None
  }

  /** A user holds a pending code exactly until it is verified, and a code
      always comes with its expiry. */
  predicate UserWellFormed(u: User)
  {
    && (u.isVerified <==> u.otp.None?)
    && (u.otp.None? <==> u.otpExpiry.None?)
  }

  /** What holds of the user collection between any two requests. */
  predicate Inv(db: UserDb)
  {
    && (forall id :: id in db.users ==> id < db.nextId)
    && UniqueEmails(db.users)
    && (forall id :: id in db.users ==> UserWellFormed(db.users[id]))
  }

  // ---------------------------------------------------------------------
  // Users by role, as the `$group` stage of `adminStats` counts them
  // ---------------------------------------------------------------------

  function UsersWithRole(users: map<Id, User>, r: Role): (ids: set<Id>)
    ensures forall id :: id in ids <==> id in users && users[id].role == r
  {
    set id | id in users && users[id].role == r
  }

  function CountRole(users: map<Id, User>, r: Role): nat
  {
    |UsersWithRole(users, r)|
  }

  /** Every user has exactly one of the four roles, so the per-role counts
      add up to the number of users. */
  lemma RolesPartition(users: map<Id, User>)
    ensures |users| == CountRole(users, UserRole) + CountRole(users, VendorRole)
                       + CountRole(users, DeliveryPartner) + CountRole(users, Admin)
  {
    var u := UsersWithRole(users, UserRole);
    var v := UsersWithRole(users, VendorRole);
    var d := UsersWithRole(users, DeliveryPartner);
    var a := UsersWithRole(users, Admin);
    assert users.Keys == u + v + d + a;
    assert u * v == {} && (u + v) * d == {} && (u + v + d) * a == {};
  }

  /** The roles in the order the statistics list them. */
  const AllRoles: seq<Role> := [UserRole, VendorRole, DeliveryPartner, Admin]

  /** The `{ $group: { _id: '$role', count: { $sum: 1 } } }` stage: one
      group per role some user holds, with its number of users, for the
      roles in `roles`. */
  function RoleGroups(users: map<Id, User>, roles: seq<Role>): (groups: seq<(Role, nat)>)
    ensures forall g :: g in groups ==> g.0 in roles && g.1 == CountRole(users, g.0) > 0
    ensures forall r :: r in roles && CountRole(users, r) > 0 ==> (r, CountRole(users, r)) in groups
  {
    if roles == [] then []
    else
      var rest := RoleGroups(users, roles[1..]);
      var count := CountRole(users, roles[0]);
      assert forall r :: r in roles ==> r == roles[0] || r in roles[1..];
      if count > 0 then [(roles[0], count)] + rest else rest
  }

  /** The sum of the per-role counts in a `usersByRole` object. */
  function RoleTotal(byRole: map<string, nat>): nat
  {
    (if "user" in byRole then byRole["user"] else 0)
    + (if "vendor" in byRole then byRole["vendor"] else 0)
    + (if "deliverypartner" in byRole then byRole["deliverypartner"] else 0)
    + (if "admin" in byRole then byRole["admin"] else 0)
  }

  /** An object holding exactly the non-zero per-role counts adds up to
      the number of users. */
  lemma RoleTotalIsUserCount(users: map<Id, User>, byRole: map<string, nat>)
    requires forall r :: RoleName(r) in byRole <==> CountRole(users, r) > 0
    requires forall r :: RoleName(r) in byRole ==> byRole[RoleName(r)] == CountRole(users, r)
    ensures RoleTotal(byRole) == |users|
  {
    RolesPartition(users);
    assert RoleName(UserRole) == "user" && RoleName(VendorRole) == "vendor";
    assert RoleName(DeliveryPartner) == "deliverypartner" && RoleName(Admin) == "admin";
  }

  /** A partial `usersByRole` object: every key is a role name, and every
      role listed carries its number of users, which is not zero. */
  predicate Tally(users: map<Id, User>, byRole: map<string, nat>)
  {
    && (forall k :: k in byRole ==> ParseRole(k).Some?)
    && (forall r :: RoleName(r) in byRole ==> CountRole(users, r) > 0 && byRole[RoleName(r)] == CountRole(users, r))
  }

  /** `acc[item._id] = item.count` for the group at `i`: the object stays
      a tally and now covers the groups up to and including `i`. */
  lemma TallyStep(users: map<Id, User>, byRole: map<string, nat>, groups: seq<(Role, nat)>, i: nat)
    requires i < |groups| && groups[i].1 == CountRole(users, groups[i].0) > 0
    requires Tally(users, byRole)
    requires forall j :: 0 <= j < i ==> RoleName(groups[j].0) in byRole
    ensures Tally(users, byRole[RoleName(groups[i].0) := groups[i].1])
    ensures forall j :: 0 <= j < i + 1 ==> RoleName(groups[j].0) in byRole[RoleName(groups[i].0) := groups[i].1]
  {
    RoleNameRoundTrip(groups[i].0);
    var next := byRole[RoleName(groups[i].0) := groups[i].1];
    forall r | RoleName(r) in next
      ensures CountRole(users, r) > 0 && next[RoleName(r)] == CountRole(users, r)
    {
      RoleNameRoundTrip(r);
    }
  }

  /** Once every group is folded in, the object lists exactly the roles some
      user holds, and its counts add up to the number of users. */
  lemma TallyComplete(users: map<Id, User>, byRole: map<string, nat>)
    requires Tally(users, byRole)
    requires forall g :: g in RoleGroups(users, AllRoles) ==> RoleName(g.0) in byRole
    ensures forall r :: RoleName(r) in byRole <==> CountRole(users, r) > 0
    ensures RoleTotal(byRole) == |users|
  {
    forall r | CountRole(users, r) > 0
      ensures RoleName(r) in byRole
    {
      assert r in AllRoles;
      assert (r, CountRole(users, r)) in RoleGroups(users, AllRoles);
    }
    RoleTotalIsUserCount(users, byRole);
  }
}
