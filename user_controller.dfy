/** The user controller (backend/controllers/authcontroller.js) as a store
    whose user collection its handlers change in place. Each handler runs
    its checks one after another, as the source does, and is proved to
    leave the store exactly as the matching function of `UserHandlers`
    says, with the same answer, and to keep the invariant `Inv`. */
module UserController {
  import opened Common
  import opened UserState
  import opened AuthMiddleware
  import opened H = UserHandlers
  import opened UserInvariant

  /** The body of the `adminStats` answer. */
  datatype Stats = Stats(totalUsers: nat, usersByRole: map<string, nat>)

  /** Each handler method runs the checks in the order the function of
      the same name in `UserHandlers` decides them, and is proved to
      leave that function's state and answer. */
  class UserStore {
    var users: map<Id, User>
    /** Where the next `_id` comes from. */
    var nextId: Id

    function State(): UserDb
      reads this
    {
      UserDb(users, nextId)
    }

    predicate Valid()
      reads this
    {
      Inv(State())
    }

    /** An empty collection. */
    constructor ()
      ensures Valid()
      ensures State() == UserDb(map[], 0)
    {
      users := map[];
      nextId := 0;
    }

    // -------------------------------------------------------------------
    // Single writes: `save`, `updateOne` and `deleteOne`. Each keeps the
    // invariant when given the facts the handler has checked.
    // -------------------------------------------------------------------

    /** `new User(...).save()`: the document takes the next id. */
    method InsertUser(u: User) returns (id: Id)
      requires Valid() && UserWellFormed(u)
      requires forall k :: k in users ==> users[k].email != u.email
      modifies this
      ensures id == old(nextId)
      ensures State() == UserDb(old(users)[id := u], id + 1)
      ensures Valid()
    {
      UserAdded(State(), u);
      id := nextId;
      users := users[id := u];
      nextId := nextId + 1;
    }

    /** `user.save()` or `User.updateOne({ email }, ...)` on a stored user,
        its e-mail unchanged. */
    method PutUser(id: Id, u: User)
      requires Valid() && id in users && UserWellFormed(u)
      requires u.email == users[id].email
      modifies this
      ensures State() == old(State()).(users := old(users)[id := u])
      ensures Valid()
    {
      UserReplaced(State(), id, u);
      users := users[id := u];
    }

    /** `User.deleteOne({ email })`. */
    method RemoveUser(id: Id)
      requires Valid()
      modifies this
      ensures State() == old(State()).(users := old(users) - {id})
      ensures Valid()
    {
      UserRemoved(State(), id);
      users := users - {id};
    }

    // -------------------------------------------------------------------
    // Handlers
    // -------------------------------------------------------------------

    method Register(b: RegisterBody, draw: nat, now: Millis, salt: nat, mailed: bool) returns (r: Outcome<string>)
      requires Valid()
      modifies this
      ensures var s := H.Register(old(State()), b, draw, now, salt, mailed);
        State() == s.db && r == s.answer
      ensures Valid()
    {
      if !(Given(b.name) && Given(b.email) && Given(b.password) && Given(b.phoneNumber) && Given(b.address)) {
        return Err(MissingFields);
      }
      if '@' !in b.email.value {
        return Err(InvalidEmailFormat);
      }
      if Given(b.role) && ParseRole(b.role.value).None? {
        return Err(InvalidRole);
      }
      var found := FindUser(users, b.email.value);
      if found.Some? {
        return Err(UserExists);
      }
      var otp := GenerateOtp(draw);
      var role := if Given(b.role) then ParseRole(b.role.value).value else UserRole;
      var user := User(b.name.value, b.email.value, Hash(b.password.value, salt), b.phoneNumber.value,
                       b.address.value, Some(otp), Some(OtpExpiry(now)), false, role);
      var _ := InsertUser(user);
      r := AfterMail(otp, mailed);
    }

    method VerifyOtp(b: OtpBody, now: Millis) returns (r: Outcome<()>)
      requires Valid()
      modifies this
      ensures var s := H.VerifyOtp(old(State()), b, now);
        State() == s.db && r == s.answer
      ensures Valid()
    {
      if !Given(b.email) || !Given(b.otp) {
        return Err(OtpFieldsRequired);
      }
      var found := FindUser(users, b.email.value);
      if found.None? {
        return Err(UserNotFound);
      }
      var user := users[found.value];
      if user.isVerified {
        return Err(AlreadyVerified);
      }
      if user.otp != Some(b.otp.value) || (user.otpExpiry.Some? && Expired(user.otpExpiry.value, now)) {
        return Err(InvalidOrExpiredOtp);
      }
      user := user.(isVerified := true);
      user := user.(otp := None);
      user := user.(otpExpiry := None);
      PutUser(found.value, user);
      r := Ok(());
    }

    method ResendOtp(email: Option<string>, draw: nat, now: Millis, mailed: bool) returns (r: Outcome<string>)
      requires Valid()
      modifies this
      ensures var s := H.ResendOtp(old(State()), email, draw, now, mailed);
        State() == s.db && r == s.answer
      ensures Valid()
    {
      if !Given(email) {
        return Err(EmailRequired);
      }
      var found := FindUser(users, email.value);
      if found.None? {
        return Err(UserNotFound);
      }
      var user := users[found.value];
      if user.isVerified {
        return Err(AlreadyVerified);
      }
      var otp := GenerateOtp(draw);
      user := user.(otp := Some(otp));
      user := user.(otpExpiry := Some(OtpExpiry(now)));
      PutUser(found.value, user);
      r := AfterMail(otp, mailed);
    }

    method UpdateUser(actor: Option<UserPrincipal>, b: ProfileBody, mailed: bool) returns (r: Outcome<()>)
      requires Valid()
      modifies this
      ensures var s := H.UpdateUser(old(State()), actor, b, mailed);
        State() == s.db && r == s.answer
      ensures Valid()
    {
      if actor.None? || b.email != Some(actor.value.email) {
        return Err(BadTokenOrEmail);
      }
      if !Given(b.email) {
        return Err(EmailRequired);
      }
      var found := FindUser(users, b.email.value);
      if found.None? {
        return Err(UserNotFound);
      }
      var user := users[found.value];
      if !user.isVerified {
        return Err(EmailNotVerified);
      }
      var patch := Patch(None, None, None);
      if Given(b.name) && b.name.value != user.name {
        patch := patch.(name := b.name);
      }
      if Given(b.phoneNumber) && b.phoneNumber.value != user.phoneNumber {
        patch := patch.(phoneNumber := b.phoneNumber);
      }
      if Given(b.address) && b.address.value != user.address {
        patch := patch.(address := b.address);
      }
      if patch == Patch(None, None, None) {
        return Err(NoChanges);
      }
      assert UserWellFormed(user);
      PutUser(found.value, ApplyPatch(user, patch));
      r := AfterMail((), mailed);
    }

    method UpdatePassword(actor: Option<UserPrincipal>, b: PasswordBody, salt: nat, mailed: bool)
      returns (r: Outcome<()>)
      requires Valid()
      modifies this
      ensures var s := H.UpdatePassword(old(State()), actor, b, salt, mailed);
        State() == s.db && r == s.answer
      ensures Valid()
    {
      if actor.None? || b.email != Some(actor.value.email) {
        return Err(BadTokenOrEmail);
      }
      if !Given(b.email) || !Given(b.currentPassword) || !Given(b.newPassword) {
        return Err(PasswordFieldsRequired);
      }
      var found := FindUser(users, b.email.value);
      if found.None? {
        return Err(UserNotFound);
      }
      var user := users[found.value];
      if !Matches(b.currentPassword.value, user.password) {
        return Err(IncorrectCurrentPassword);
      }
      if !user.isVerified {
        return Err(EmailNotVerified);
      }
      assert UserWellFormed(user);
      PutUser(found.value, user.(password := Hash(b.newPassword.value, salt)));
      r := AfterMail((), mailed);
    }

    method DeleteAccount(actor: Option<UserPrincipal>, b: Credentials, mailed: bool) returns (r: Outcome<()>)
      requires Valid()
      modifies this
      ensures var s := H.DeleteAccount(old(State()), actor, b, mailed);
        State() == s.db && r == s.answer
      ensures Valid()
    {
      if actor.None? || b.email != Some(actor.value.email) {
        return Err(BadTokenOrEmail);
      }
      if !Given(b.email) || !Given(b.password) {
        return Err(CredentialsRequired);
      }
      var found := FindUser(users, b.email.value);
      if found.None? {
        return Err(UserNotFound);
      }
      var user := users[found.value];
      if !Matches(b.password.value, user.password) {
        return Err(IncorrectPassword);
      }
      if !user.isVerified {
        return Err(EmailNotVerified);
      }
      RemoveUser(found.value);
      r := AfterMail((), mailed);
    }

    /** `adminStats`: the number of users, and the groups of the role
        aggregation folded into an object keyed by role name. Every role
        some user holds appears with its count, no other key appears, and
        the counts add up to the total. */
    method AdminStats() returns (stats: Stats)
      ensures stats.totalUsers == |users|
      ensures forall r :: RoleName(r) in stats.usersByRole <==> CountRole(users, r) > 0
      ensures forall r :: RoleName(r) in stats.usersByRole ==> stats.usersByRole[RoleName(r)] == CountRole(users, r)
      ensures forall k :: k in stats.usersByRole ==> ParseRole(k).Some?
      ensures RoleTotal(stats.usersByRole) == stats.totalUsers
    {
      var groups := RoleGroups(users, AllRoles);
      var byRole: map<string, nat> := map[];
      for i := 0 to |groups|
        invariant Tally(users, byRole)
        invariant forall j :: 0 <= j < i ==> RoleName(groups[j].0) in byRole
      {
        assert groups[i] in groups;
        TallyStep(users, byRole, groups, i);
        byRole := byRole[RoleName(groups[i].0) := groups[i].1];
      }
      TallyComplete(users, byRole);
      stats := Stats(|users|, byRole);
    }
  }
}
