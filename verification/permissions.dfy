/**
 The permission classes of the accounts app and the two-stage check the web
 framework runs with them: `has_permission` before the handler, and
 `has_object_permission` when a detail handler looks its target up. A class
 that does not override one of the two stages allows everything at that stage.
 */
module Permissions {
  import opened Wrappers
  import opened Users

  predicate IsAuthenticated(r: Requester) {
    r.Authenticated?
  }

  /** The role of an authenticated caller. */
  predicate HasRole(r: Requester, role: Role) {
    r.Authenticated? && r.user.role == role
  }

  predicate IsAdmin(r: Requester) {
    HasRole(r, Admin)
  }

  predicate IsDonor(r: Requester) {
    HasRole(r, Donor)
  }

  predicate IsVerifiedDonor(r: Requester) {
    r.Authenticated? && r.user.role == Donor && r.user.isVerified
  }

  predicate IsCharity(r: Requester) {
    HasRole(r, Charity)
  }

  predicate IsVerifiedCharity(r: Requester) {
    r.Authenticated? && r.user.role == Charity && r.user.isVerified
  }

  predicate IsAdminOrDonor(r: Requester) {
    if !r.Authenticated? then false else r.user.role in {Admin, Donor}
  }

  predicate IsAdminOrVerifiedDonor(r: Requester) {
    if !r.Authenticated? then false
    else if r.user.role == Admin then true
    else r.user.role == Donor && r.user.isVerified
  }

  predicate IsAdminOrCharity(r: Requester) {
    if !r.Authenticated? then false else r.user.role in {Admin, Charity}
  }

  predicate IsAdminOrVerifiedCharity(r: Requester) {
    if !r.Authenticated? then false
    else if r.user.role == Admin then true
    else r.user.role == Charity && r.user.isVerified
  }

  /**
   The owner attributes an object exposes: `Some` when the object has an attribute
   of that name (its value is the owning user's id), `None` when it has none.
   */
  datatype OwnerFields = OwnerFields(user: Option<UserId>, donor: Option<UserId>)

  /** `IsOwnerOrAdmin.has_object_permission`: a `user` attribute is consulted before `donor`. */
  predicate IsOwnerOrAdmin(r: Requester, obj: OwnerFields) {
    if !r.Authenticated? then false
    else if r.user.role == Admin then true
    else if obj.user.Some? then obj.user.value == r.user.id
    else if obj.donor.Some? then obj.donor.value == r.user.id
    else false
  }

  /** The permission classes a view can name. */
  datatype PermissionClass =
    | AllowAnyClass
    | IsAuthenticatedClass
    | IsAdminClass
    | IsDonorClass
    | IsVerifiedDonorClass
    | IsCharityClass
    | IsVerifiedCharityClass
    | IsAdminOrDonorClass
    | IsAdminOrVerifiedDonorClass
    | IsAdminOrCharityClass
    | IsAdminOrVerifiedCharityClass
    | IsOwnerOrAdminClass

  /** The view-level stage. `IsOwnerOrAdmin` defines only the object stage, so it passes here. */
  predicate HasPermission(p: PermissionClass, r: Requester) {
    match p
    case AllowAnyClass => true
    case IsAuthenticatedClass => IsAuthenticated(r)
    case IsAdminClass => IsAdmin(r)
    case IsDonorClass => IsDonor(r)
    case IsVerifiedDonorClass => IsVerifiedDonor(r)
    case IsCharityClass => IsCharity(r)
    case IsVerifiedCharityClass => IsVerifiedCharity(r)
    case IsAdminOrDonorClass => IsAdminOrDonor(r)
    case IsAdminOrVerifiedDonorClass => IsAdminOrVerifiedDonor(r)
    case IsAdminOrCharityClass => IsAdminOrCharity(r)
    case IsAdminOrVerifiedCharityClass => IsAdminOrVerifiedCharity(r)
    case IsOwnerOrAdminClass => true
  }

  /** The object-level stage. Only `IsOwnerOrAdmin` defines it; every other class passes. */
  predicate HasObjectPermission(p: PermissionClass, r: Requester, obj: OwnerFields) {
    if p == IsOwnerOrAdminClass then IsOwnerOrAdmin(r, obj) else true
  }

  // ---------------------------------------------------------------------
  // Properties of the predicates

  /** Every class except `AllowAny` refuses an anonymous caller at the stage it defines. */
  lemma AnonymousRefused(p: PermissionClass, obj: OwnerFields)
    ensures p != AllowAnyClass && p != IsOwnerOrAdminClass ==> !HasPermission(p, Anonymous)
    ensures !HasObjectPermission(IsOwnerOrAdminClass, Anonymous, obj)
    ensures !IsOwnerOrAdmin(Anonymous, obj)
  {
  }

  /** Verification narrows a role and never grants one. */
  lemma VerifiedImpliesRole(r: Requester)
    ensures IsVerifiedDonor(r) <==> IsDonor(r) && r.user.isVerified
    ensures IsVerifiedCharity(r) <==> IsCharity(r) && r.user.isVerified
  {
  }

  /** The combined classes are the disjunctions of the single ones. */
  lemma CombinedAreDisjunctions(r: Requester)
    ensures IsAdminOrDonor(r) <==> IsAdmin(r) || IsDonor(r)
    ensures IsAdminOrVerifiedDonor(r) <==> IsAdmin(r) || IsVerifiedDonor(r)
    ensures IsAdminOrCharity(r) <==> IsAdmin(r) || IsCharity(r)
    ensures IsAdminOrVerifiedCharity(r) <==> IsAdmin(r) || IsVerifiedCharity(r)
  {
  }

  /** An admin passes the "admin or verified" classes whatever its verification flag. */
  lemma AdminIgnoresVerification(u: User)
    requires u.role == Admin
    ensures IsAdminOrVerifiedDonor(Authenticated(u)) && IsAdminOrVerifiedDonor(Authenticated(u.(isVerified := !u.isVerified)))
    ensures IsAdminOrVerifiedCharity(Authenticated(u)) && IsAdminOrVerifiedCharity(Authenticated(u.(isVerified := !u.isVerified)))
  {
  }

  /** A single-valued role makes the donor and charity classes mutually exclusive. */
  lemma DonorAndCharityExclusive(r: Requester)
    ensures !(IsDonor(r) && IsCharity(r))
    ensures !(IsVerifiedDonor(r) && IsCharity(r))
    ensures !(IsDonor(r) && IsVerifiedCharity(r))
  {
  }

  /** An admin may act on any object, whatever attributes it has. */
  lemma AdminOwnsEverything(u: User, obj: OwnerFields)
    requires u.role == Admin
    ensures IsOwnerOrAdmin(Authenticated(u), obj)
  {
  }

  /** For a non-admin, a `user` attribute decides alone; `donor` is consulted only without it. */
  lemma OwnerFieldPrecedence(u: User, obj: OwnerFields)
    requires u.role != Admin
    ensures obj.user.Some? ==> (IsOwnerOrAdmin(Authenticated(u), obj) <==> obj.user.value == u.id)
    ensures obj.user.None? && obj.donor.Some? ==> (IsOwnerOrAdmin(Authenticated(u), obj) <==> obj.donor.value == u.id)
    ensures obj.user.None? && obj.donor.None? ==> !IsOwnerOrAdmin(Authenticated(u), obj)
  {
  }

  // ---------------------------------------------------------------------
  // Category view sets

  /** The actions of a category view set. */
  datatype CategoryAction = ListCategories | RetrieveCategory | CreateCategory | UpdateCategory | DestroyCategory

  /**
   The gate the two category view sets (food and waste categories) share:
   reading needs authentication, every write an admin.
   */
  function CategoryGate(a: CategoryAction): (p: PermissionClass)
    ensures a == ListCategories || a == RetrieveCategory ==> p == IsAuthenticatedClass
    ensures a != ListCategories && a != RetrieveCategory ==> forall r :: HasPermission(p, r) <==> IsAdmin(r)
  {
    if a == ListCategories || a == RetrieveCategory then IsAuthenticatedClass else IsAdminClass
  }
}
