/**
 The accounts endpoints: `UserViewSet` (its serializer choice, its permission
 table, `update_profile`, `change_password`, update and destroy) and
 `RegisterView`. The Django calls the core cannot see are parameters:
 `validate_password` is a predicate on the candidate password, and the
 model-field validation of the user columns (their lengths, the e-mail format
 and uniqueness) is a boolean verdict, since the user model is not part of this
 model.
 */
module Accounts {
  import opened Wrappers
  import opened Text
  import opened Fields
  import opened Users
  import opened Http
  import opened Permissions
  import opened Store

  // ---------------------------------------------------------------------
  // Serializer choice and permission table

  datatype UserSerializerKind = PlainUserSerializer | AdminUserSerializer

  /** `get_serializer_class`: authenticated admins get the admin serializer, everyone else the plain one. */
  function SerializerFor(r: Requester): (k: UserSerializerKind)
    ensures k == AdminUserSerializer <==> IsAdmin(r)
  {
    if r.Authenticated? && r.user.role == Admin then AdminUserSerializer else PlainUserSerializer
  }

  datatype UserAction =
    | CreateUser | ListUsers | RetrieveUser | UpdateUser | PartialUpdateUser | DestroyUser
    | MeAction | UpdateProfileAction | ChangePasswordAction

  /** `get_permissions` of `UserViewSet`. */
  function UserGate(a: UserAction): PermissionClass {
    match a
    case CreateUser => AllowAnyClass
    case UpdateUser | PartialUpdateUser | DestroyUser => IsOwnerOrAdminClass
    case MeAction | UpdateProfileAction | ChangePasswordAction => IsAuthenticatedClass
    case _ => IsAdminClass
  }

  /**
   Listing and retrieving users is for admins; the self-service actions for any
   authenticated caller; creation for anyone. Editing another user's row through
   update or destroy is for admins only, because a user row has neither a `user`
   nor a `donor` attribute.
   */
  lemma UserGateTable(r: Requester, u: User)
    ensures HasPermission(UserGate(ListUsers), r) <==> IsAdmin(r)
    ensures HasPermission(UserGate(RetrieveUser), r) <==> IsAdmin(r)
    ensures HasPermission(UserGate(CreateUser), r)
    ensures HasPermission(UserGate(UpdateProfileAction), r) <==> r.Authenticated?
    ensures HasPermission(UserGate(ChangePasswordAction), r) <==> r.Authenticated?
    ensures HasObjectPermission(UserGate(DestroyUser), r, UserOwner(u)) <==> IsAdmin(r)
    ensures HasObjectPermission(UserGate(UpdateUser), r, UserOwner(u)) <==> IsAdmin(r)
  {
  }

  // ---------------------------------------------------------------------
  // Profile updates

  /** The user attributes of a request body; `None` means the key is absent. */
  datatype UserPatch = UserPatch(
    email: Option<string>,
    firstName: Option<string>,
    lastName: Option<string>,
    phoneNumber: Option<string>,
    address: Option<string>,
    city: Option<string>,
    state: Option<string>,
    zipCode: Option<string>,
    organizationName: Option<string>,
    organizationDescription: Option<string>,
    role: Option<Role>,
    isVerified: Option<bool>,
    dateJoined: Option<nat>,
    isActive: Option<bool>,
    isStaff: Option<bool>,
    isSuperuser: Option<bool>,
    id: Option<UserId>)

  /** A submitted text value as stored: trimmed, or the old value when absent. */
  function Keep(given: Option<string>, stored: string): string {
    match given
    case Some(v) => Trim(v)
    case None => stored
  }

  function PatchProfile(p: Profile, q: UserPatch): Profile {
    Profile(
      Keep(q.email, p.email), Keep(q.firstName, p.firstName), Keep(q.lastName, p.lastName),
      Keep(q.phoneNumber, p.phoneNumber), Keep(q.address, p.address), Keep(q.city, p.city),
      Keep(q.state, p.state), Keep(q.zipCode, p.zipCode),
      Keep(q.organizationName, p.organizationName), Keep(q.organizationDescription, p.organizationDescription))
  }

  /**
   What a serializer writes: the profile text and the role through either; the
   verification flag, the join date and the three account flags only through the
   admin serializer. The id and the password are never written.
   */
  function ApplyUserPatch(u: User, q: UserPatch, kind: UserSerializerKind): (u': User)
    ensures u'.id == u.id && u'.password == u.password
    ensures u'.profile == PatchProfile(u.profile, q)
    ensures u'.role == q.role.GetOr(u.role)
    ensures kind == PlainUserSerializer ==>
      && u'.isVerified == u.isVerified && u'.dateJoined == u.dateJoined
      && u'.isActive == u.isActive && u'.isStaff == u.isStaff && u'.isSuperuser == u.isSuperuser
    ensures kind == AdminUserSerializer ==>
      && u'.isVerified == q.isVerified.GetOr(u.isVerified) && u'.dateJoined == q.dateJoined.GetOr(u.dateJoined)
      && u'.isActive == q.isActive.GetOr(u.isActive) && u'.isStaff == q.isStaff.GetOr(u.isStaff)
      && u'.isSuperuser == q.isSuperuser.GetOr(u.isSuperuser)
  {
    var base := u.(profile := PatchProfile(u.profile, q), role := q.role.GetOr(u.role));
    match kind
    case PlainUserSerializer => base
    case AdminUserSerializer =>
      base.(isVerified := q.isVerified.GetOr(u.isVerified), dateJoined := q.dateJoined.GetOr(u.dateJoined),
            isActive := q.isActive.GetOr(u.isActive), isStaff := q.isStaff.GetOr(u.isStaff),
            isSuperuser := q.isSuperuser.GetOr(u.isSuperuser))
  }

  /** A role in a body must be one of the choices. */
  predicate RoleChoice(q: UserPatch) {
    q.role.None? || q.role.value != Unlisted
  }

  /**
   update_profile: an authenticated caller partially updates its own row and no
   other. `fieldsValid` is the verdict of the user model's own field validation.
   */
  function UpdateProfile(db: Db, r: Requester, q: UserPatch, fieldsValid: bool): (o: Outcome)
    requires SignedIn(db, r)
    ensures o.response == Ok <==> r.Authenticated? && fieldsValid && RoleChoice(q)
    ensures o.response != Ok ==> o.db == db
    ensures o.response == Ok ==>
      && o.db == db.(users := db.users[r.user.id := ApplyUserPatch(r.user, q, SerializerFor(r))])
      && o.db.users.Keys == db.users.Keys
      && o.db.users[r.user.id].isVerified == (if IsAdmin(r) then q.isVerified.GetOr(r.user.isVerified) else r.user.isVerified)
    ensures r.Anonymous? ==> o == Outcome(Forbidden(PermissionDenied), db)
  {
    if !HasPermission(UserGate(UpdateProfileAction), r) then Outcome(Forbidden(PermissionDenied), db)
    else if !fieldsValid || !RoleChoice(q) then Outcome(BadRequest(InvalidPayload), db)
    else Outcome(Ok, db.(users := db.users[r.user.id := ApplyUserPatch(r.user, q, SerializerFor(r))]))
  }

  /**
   A non-admin cannot verify itself, and yet can make itself an admin: `role` is
   writable through the plain user serializer. The corrected
   `UpdateProfileChecked` keeps the role.
   */
  lemma SelfServiceLimits(db: Db, u: User, q: UserPatch, fieldsValid: bool)
    requires SignedIn(db, Authenticated(u))
    requires u.role != Admin && fieldsValid && q.role == Some(Admin)
    ensures var o := UpdateProfile(db, Authenticated(u), q, fieldsValid);
      && o.response == Ok
      && o.db.users[u.id].isVerified == u.isVerified
      && o.db.users[u.id].role == Admin
    ensures var c := UpdateProfileChecked(db, Authenticated(u), q, fieldsValid);
      c.response == Ok && c.db.users[u.id].role == u.role != Admin
  {
  }

  /**
   update_profile with `role` read-only for a non-admin caller, as `is_verified`
   already is: a user edits their profile text but keeps their role and
   verification. An admin's own update is unchanged.
   */
  function UpdateProfileChecked(db: Db, r: Requester, q: UserPatch, fieldsValid: bool): (o: Outcome)
    requires SignedIn(db, r)
    ensures o.response == Ok <==> r.Authenticated? && fieldsValid && (IsAdmin(r) ==> RoleChoice(q))
    ensures o.response != Ok ==> o.db == db
    ensures o.response == Ok ==>
      && o.db.(users := db.users) == db
      && o.db.users.Keys == db.users.Keys
      && (forall k :: k in db.users && k != r.user.id ==> o.db.users[k] == db.users[k])
      && o.db.users[r.user.id].profile == PatchProfile(r.user.profile, q)
      && o.db.users[r.user.id].password == r.user.password
    ensures o.response == Ok && !IsAdmin(r) ==>
      o.db.users[r.user.id].role == r.user.role && o.db.users[r.user.id].isVerified == r.user.isVerified
  {
    var q' := if IsAdmin(r) then q else q.(role := None);
    UpdateProfile(db, r, q', fieldsValid)
  }

  /** The correction only concerns the role: a body without one is handled exactly as before. */
  lemma UpdateProfileCheckedAgrees(db: Db, r: Requester, q: UserPatch, fieldsValid: bool)
    requires SignedIn(db, r)
    requires q.role.None? || IsAdmin(r)
    ensures UpdateProfileChecked(db, r, q, fieldsValid) == UpdateProfile(db, r, q, fieldsValid)
  {
  }

  /**
   update / partial_update of a user row: only an admin gets past the object
   check (a user row has no owner attribute); an absent row is 404.
   */
  function UpdateUserRow(db: Db, r: Requester, id: UserId, q: UserPatch, fieldsValid: bool): (o: Outcome)
    ensures o.response == Ok <==> IsAdmin(r) && id in db.users && fieldsValid && RoleChoice(q)
    ensures o.response == Ok ==> o.db == db.(users := db.users[id := ApplyUserPatch(db.users[id], q, AdminUserSerializer)])
    ensures o.response != Ok ==> o.db == db
    ensures !IsAdmin(r) && id in db.users ==> o.response == Forbidden(PermissionDenied)
  {
    if id !in db.users then Outcome(NotFound, db)
    else if !HasObjectPermission(UserGate(UpdateUser), r, UserOwner(db.users[id])) then Outcome(Forbidden(PermissionDenied), db)
    else if !fieldsValid || !RoleChoice(q) then Outcome(BadRequest(InvalidPayload), db)
    else Outcome(Ok, db.(users := db.users[id := ApplyUserPatch(db.users[id], q, SerializerFor(r))]))
  }

  /** destroy of a user row: admins only, with the cascades of `DeleteUser`. */
  function DestroyUserRow(db: Db, r: Requester, id: UserId): (o: Outcome)
    ensures o.response == NoContent <==> IsAdmin(r) && id in db.users
    ensures o.response == NoContent ==> o.db == DeleteUser(db, id)
    ensures o.response != NoContent ==> o.db == db
  {
    if id !in db.users then Outcome(NotFound, db)
    else if !HasObjectPermission(UserGate(DestroyUser), r, UserOwner(db.users[id])) then Outcome(Forbidden(PermissionDenied), db)
    else Outcome(NoContent, DeleteUser(db, id))
  }

  // ---------------------------------------------------------------------
  // change_password

  /** A change-password body; every key is required. */
  datatype PasswordChange = PasswordChange(oldPassword: Option<string>, newPassword: Option<string>, newPassword2: Option<string>)

  /**
   The serializer's verdict: the three trimmed, non-blank values, or `None` when a
   field is missing or blank, the new password fails `acceptable`, or the two new
   values differ (`PasswordsDiffer` only when every field passed).
   */
  datatype PasswordCheck = FieldErrors | Mismatch | Passwords(current: string, next: string)

  function CheckPasswordChange(p: PasswordChange, acceptable: string -> bool): (c: PasswordCheck)
    ensures c.Passwords? ==>
      && p.oldPassword.Some? && p.newPassword.Some? && p.newPassword2.Some?
      && c.current == Trim(p.oldPassword.value) && c.next == Trim(p.newPassword.value) && c.next == Trim(p.newPassword2.value)
      && c.current != [] && c.next != [] && acceptable(c.next) && NoNul(c.current) && NoNul(c.next)
    ensures c.Mismatch? ==> p.newPassword.Some? && p.newPassword2.Some? && Trim(p.newPassword.value) != Trim(p.newPassword2.value)
  {
    var current := RequiredChar(p.oldPassword, None, None);
    var next := RequiredChar(p.newPassword, None, None);
    var next2 := RequiredChar(p.newPassword2, None, None);
    if current.None? || next.None? || next2.None? || !acceptable(next.value) then FieldErrors
    else if next.value != next2.value then Mismatch
    else Passwords(current.value, next.value)
  }

  /**
   change_password: the body is checked first (400 with the field errors), then
   the old password (400 "Wrong password."), and only then is the password set.
   */
  function ChangePassword(db: Db, r: Requester, p: PasswordChange, acceptable: string -> bool): (o: Outcome)
    requires SignedIn(db, r)
    ensures o.response == Ok <==>
      r.Authenticated? && CheckPasswordChange(p, acceptable).Passwords? && CheckPasswordChange(p, acceptable).current == r.user.password
    ensures o.response == Ok ==>
      && o.db == db.(users := db.users[r.user.id := r.user.(password := CheckPasswordChange(p, acceptable).next)])
      && o.db.users.Keys == db.users.Keys
    ensures o.response != Ok ==> o.db == db
    ensures r.Authenticated? && CheckPasswordChange(p, acceptable).Mismatch? ==> o.response == BadRequest(PasswordsDiffer)
    ensures r.Authenticated? && CheckPasswordChange(p, acceptable).Passwords? && CheckPasswordChange(p, acceptable).current != r.user.password ==>
      o.response == BadRequest(WrongPassword)
  {
    if !HasPermission(UserGate(ChangePasswordAction), r) then Outcome(Forbidden(PermissionDenied), db)
    else
      match CheckPasswordChange(p, acceptable)
      case FieldErrors => Outcome(BadRequest(InvalidPayload), db)
      case Mismatch => Outcome(BadRequest(PasswordsDiffer), db)
      case Passwords(current, next) =>
        if current != r.user.password then Outcome(BadRequest(WrongPassword), db)
        else Outcome(Ok, db.(users := db.users[r.user.id := r.user.(password := next)]))
  }

  /** Already-trimmed, non-blank values without a null character pass the serializer as they are. */
  lemma CheckTrimmedPasswords(current: string, next: string, acceptable: string -> bool)
    requires current != [] && Trimmed(current) && NoNul(current)
    requires next != [] && Trimmed(next) && NoNul(next) && acceptable(next)
    ensures CheckPasswordChange(PasswordChange(Some(current), Some(next), Some(next)), acceptable) == Passwords(current, next)
  {
    TrimOfTrimmed(current);
    TrimOfTrimmed(next);
  }

  /** An accepted new password is stored trimmed, so it passes the serializer again unchanged. */
  lemma AcceptedPasswordTrimmed(p: PasswordChange, acceptable: string -> bool)
    requires CheckPasswordChange(p, acceptable).Passwords?
    ensures var n := CheckPasswordChange(p, acceptable).next; n != [] && Trimmed(n)
  {
  }

  /** A body that checks out with the caller's password as the old one is applied. */
  lemma ChangePasswordApplies(db: Db, u: User, p: PasswordChange, acceptable: string -> bool, next: string)
    requires SignedIn(db, Authenticated(u))
    requires CheckPasswordChange(p, acceptable) == Passwords(u.password, next)
    ensures ChangePassword(db, Authenticated(u), p, acceptable) == Outcome(Ok, db.(users := db.users[u.id := u.(password := next)]))
  {
  }

  /**
   A successful change can be undone: with the new password as the old one and
   the previous password as the new one, the stored row is back to what it was.
   */
  lemma ChangePasswordUndo(db: Db, u: User, p: PasswordChange, acceptable: string -> bool, next: string)
    requires u.id in db.users && db.users[u.id] == u
    requires CheckPasswordChange(p, acceptable) == Passwords(u.password, next)
    requires u.password != [] && acceptable(u.password) && Trimmed(u.password)
    ensures var o := ChangePassword(db, Authenticated(u), p, acceptable);
      && o.response == Ok && o.db.users[u.id] == u.(password := next)
      && ChangePassword(o.db, Authenticated(u.(password := next)), PasswordChange(Some(next), Some(u.password), Some(u.password)), acceptable)
         == Outcome(Ok, db)
  {
    var u' := u.(password := next);
    var db1 := db.(users := db.users[u.id := u']);
    ChangePasswordApplies(db, u, p, acceptable, next);
    AcceptedPasswordTrimmed(p, acceptable);
    CheckTrimmedPasswords(next, u.password, acceptable);
    var back := PasswordChange(Some(next), Some(u.password), Some(u.password));
    ChangePasswordApplies(db1, u', back, acceptable, u.password);
    assert u'.(password := u.password) == u;
    MapRestore(db.users, u.id, u');
  }

  /** Writing a key and then writing its old value back leaves a map as it was. */
  lemma MapRestore<K, V>(m: map<K, V>, k: K, v: V)
    requires k in m
    ensures m[k := v][k := m[k]] == m
  {
  }

  // ---------------------------------------------------------------------
  // Registration

  /** A registration body; `password` and `password2` are required, `role` is a choice. */
  datatype Registration = Registration(
    profile: UserPatch,
    password: Option<string>,
    password2: Option<string>)

  /** The registration response body: no password in it by construction. */
  datatype Registered = Registered(id: UserId, email: string, firstName: string, lastName: string, role: Role, message: string)

  datatype RegisterOutcome = RegisterOutcome(response: Response, body: Option<Registered>, db: Db)

  /** The role a registration without one gets (the model default of the user table). */
  const DefaultRole := Donor

  /**
   The serializer's validation. Field level first: the trimmed passwords must be
   non-blank and the first must pass `acceptable`, the role must be a choice, and
   the user model's own field checks (`fieldsValid`) must pass. Then `validate`:
   differing passwords first, then a charity without an organization name.
   */
  function CheckRegistration(p: Registration, acceptable: string -> bool, fieldsValid: bool): (why: Option<Reason>)
    ensures why.None? ==>
      && p.password.Some? && p.password2.Some?
      && Trim(p.password.value) != [] && Trim(p.password.value) == Trim(p.password2.value)
      && NoNul(Trim(p.password.value)) && acceptable(Trim(p.password.value))
      && (p.profile.role == Some(Charity) ==> p.profile.organizationName.Some? && Trim(p.profile.organizationName.value) != [])
  {
    var pw := RequiredChar(p.password, None, None);
    var pw2 := RequiredChar(p.password2, None, None);
    if pw.None? || pw2.None? || !acceptable(pw.value) || !RoleChoice(p.profile) || !fieldsValid then Some(InvalidPayload)
    else if pw.value != pw2.value then Some(PasswordsDiffer)
    else if p.profile.role == Some(Charity) && Keep(p.profile.organizationName, "") == [] then Some(OrganizationRequired)
    else None
  }

  /** The row `create_user` stores: `password2` dropped, unverified, the profile as submitted. */
  function NewUser(id: UserId, p: Registration, now: nat): User
    requires p.password.Some?
  {
    var blank := Profile("", "", "", "", "", "", "", "", "", "");
    User(id, PatchProfile(blank, p.profile), p.profile.role.GetOr(DefaultRole), false, now, true, false, false,
         Trim(p.password.value))
  }

  /** `RegisterView.create`: 201 with the public attributes of the new user, or 400 and nothing stored. */
  function Register(db: Db, p: Registration, now: nat, acceptable: string -> bool, fieldsValid: bool): (o: RegisterOutcome)
    ensures o.response.Created? <==> CheckRegistration(p, acceptable, fieldsValid).None?
    ensures !o.response.Created? ==> o.db == db && o.body.None? && o.response == BadRequest(CheckRegistration(p, acceptable, fieldsValid).value)
    ensures o.response.Created? ==>
      && o.response.id == db.nextId && o.db.nextId == db.nextId + 1
      && o.db.users.Keys == db.users.Keys + {db.nextId}
      && var u := o.db.users[db.nextId];
      && u.password == Trim(p.password.value) && !u.isVerified && u.role == p.profile.role.GetOr(DefaultRole)
      && o.body == Some(Registered(db.nextId, u.profile.email, u.profile.firstName, u.profile.lastName, u.role, "Registration successful"))
  {
    match CheckRegistration(p, acceptable, fieldsValid)
    case Some(why) => RegisterOutcome(BadRequest(why), None, db)
    case None =>
      var u := NewUser(db.nextId, p, now);
      RegisterOutcome(Created(db.nextId), Some(Registered(u.id, u.profile.email, u.profile.firstName, u.profile.lastName, u.role, "Registration successful")),
                      db.(users := db.users[db.nextId := u], nextId := db.nextId + 1))
  }

  /** Mismatched passwords are reported even when the organization name is missing too. */
  lemma PasswordCheckFirst(p: Registration, acceptable: string -> bool)
    requires p.password.Some? && p.password2.Some?
    requires Trim(p.password.value) != [] && Trim(p.password2.value) != [] && acceptable(Trim(p.password.value))
    requires NoNul(Trim(p.password.value)) && NoNul(Trim(p.password2.value))
    requires Trim(p.password.value) != Trim(p.password2.value)
    requires p.profile.role == Some(Charity) && p.profile.organizationName.None?
    ensures CheckRegistration(p, acceptable, true) == Some(PasswordsDiffer)
  {
    assert RequiredChar(p.password, None, None) == Some(Trim(p.password.value));
    assert RequiredChar(p.password2, None, None) == Some(Trim(p.password2.value));
  }

  /** The response body does not depend on the password: two bodies differing only there answer alike. */
  lemma RegisteredBodyHidesPassword(db: Db, p: Registration, q: Registration, now: nat, acceptable: string -> bool, fieldsValid: bool)
    requires p.profile == q.profile
    requires CheckRegistration(p, acceptable, fieldsValid).None? && CheckRegistration(q, acceptable, fieldsValid).None?
    ensures Register(db, p, now, acceptable, fieldsValid).body == Register(db, q, now, acceptable, fieldsValid).body
  {
  }

  /** The converse of `CheckRegistration`'s contract: a complete, consistent body is accepted. */
  lemma RegistrationAccepted(p: Registration, acceptable: string -> bool)
    requires p.password.Some? && p.password2.Some?
    requires Trim(p.password.value) != [] && Trim(p.password.value) == Trim(p.password2.value)
    requires NoNul(Trim(p.password.value)) && acceptable(Trim(p.password.value)) && RoleChoice(p.profile)
    requires p.profile.role == Some(Charity) ==> p.profile.organizationName.Some? && Trim(p.profile.organizationName.value) != []
    ensures CheckRegistration(p, acceptable, true).None?
  {
    assert RequiredChar(p.password, None, None) == Some(Trim(p.password.value));
    assert RequiredChar(p.password2, None, None) == Some(Trim(p.password2.value));
  }

  /**
   A new account can use the password it registered with: changing it with that
   password as the old one (trimmed, as stored) succeeds.
   */
  lemma RegisteredPasswordWorks(db: Db, p: Registration, now: nat, acceptable: string -> bool, fieldsValid: bool, next: string)
    requires Register(db, p, now, acceptable, fieldsValid).response.Created?
    requires next != [] && Trimmed(next) && NoNul(next) && acceptable(next)
    ensures var o := Register(db, p, now, acceptable, fieldsValid);
      var u := o.db.users[db.nextId];
      ChangePassword(o.db, Authenticated(u), PasswordChange(Some(Trim(p.password.value)), Some(next), Some(next)), acceptable).response == Ok
  {
    var o := Register(db, p, now, acceptable, fieldsValid);
    var u := o.db.users[db.nextId];
    var pw := Trim(p.password.value);
    TrimIdempotent(p.password.value);
    assert Trimmed(pw);
    CheckTrimmedPasswords(pw, next, acceptable);
    assert u.password == pw;
  }
}
