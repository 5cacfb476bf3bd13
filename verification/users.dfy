/**
 The custom user record of the accounts app and the authenticated identity a
 request carries. Only the attributes the core reads or writes are kept.
 */
module Users {

  type UserId = nat

  /**
   The `role` column. `Unlisted` stands for any stored value other than the three
   choices; the role-scoped querysets have an explicit branch for it.
   */
  datatype Role = Admin | Donor | Charity | Unlisted

  /** The writable profile text of a user; `""` stands for a blank or null column. */
  datatype Profile = Profile(
    email: string,
    firstName: string,
    lastName: string,
    phoneNumber: string,
    address: string,
    city: string,
    state: string,
    zipCode: string,
    organizationName: string,
    organizationDescription: string)

  /**
   A stored user. `password` is the stored credential; hashing is not modelled,
   so checking a password is equality with this value.
   */
  datatype User = User(
    id: UserId,
    profile: Profile,
    role: Role,
    isVerified: bool,
    dateJoined: nat,
    isActive: bool,
    isStaff: bool,
    isSuperuser: bool,
    password: string)

  /** `request.user`: the anonymous user, or a stored user resolved from the bearer token. */
  datatype Requester = Anonymous | Authenticated(user: User)
}
