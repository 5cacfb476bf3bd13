/**
 The registration page: thirteen text inputs, checked on the client before the
 form is posted to the registration endpoint; a successful registration clears
 the form back to its initial state.
 */
module RegisterPage {
  import opened Wrappers
  import opened Text
  import opened Fields
  import opened Users
  import opened Http
  import opened Store
  import Accounts

  datatype RegisterForm = RegisterForm(
    email: string,
    password: string,
    password2: string,
    firstName: string,
    lastName: string,
    role: string,
    phoneNumber: string,
    address: string,
    city: string,
    state: string,
    zipCode: string,
    organizationName: string,
    organizationDescription: string)

  /** The form as the page first shows it: every input empty and the donor role chosen. */
  const InitialForm := RegisterForm("", "", "", "", "", "donor", "", "", "", "", "", "", "")

  const FillRequired := "Please fill in all required fields"
  const PasswordsDoNotMatch := "Passwords do not match"
  const OrganizationNeeded := "Organization name is required for charities"

  /** One of the four required inputs is empty or only whitespace once trimmed by JavaScript. */
  predicate RequiredBlank(f: RegisterForm) {
    JsBlank(f.email) || JsBlank(f.password) || JsBlank(f.firstName) || JsBlank(f.lastName)
  }

  /**
   The client-side checks, first failure wins. The passwords are compared as
   typed and the organization name is compared with the empty string without trimming.
   */
  function CheckRegisterForm(f: RegisterForm): (err: Option<string>)
    ensures err == Some(FillRequired) <==> RequiredBlank(f)
    ensures err == Some(PasswordsDoNotMatch) <==> !RequiredBlank(f) && f.password != f.password2
    ensures err == Some(OrganizationNeeded) <==>
      !RequiredBlank(f) && f.password == f.password2 && f.role == "charity" && f.organizationName == ""
    ensures err.None? <==>
      !RequiredBlank(f) && f.password == f.password2 && (f.role == "charity" ==> f.organizationName != "")
  {
    if RequiredBlank(f) then Some(FillRequired)
    else if f.password != f.password2 then Some(PasswordsDoNotMatch)
    else if f.role == "charity" && f.organizationName == "" then Some(OrganizationNeeded)
    else None
  }

  /** The role value as the server reads it; anything but the three choices is not a choice. */
  function RoleOf(s: string): Role {
    if s == "admin" then Admin
    else if s == "donor" then Donor
    else if s == "charity" then Charity
    else Unlisted
  }

  /** The body the page posts: every input, the organization name included for every role. */
  function Payload(f: RegisterForm): (p: Accounts.Registration)
    ensures p.password == Some(f.password) && p.password2 == Some(f.password2)
    ensures p.profile.role == Some(RoleOf(f.role)) && p.profile.organizationName == Some(f.organizationName)
    ensures p.profile.isVerified.None? && p.profile.isStaff.None? && p.profile.isSuperuser.None?
  {
    Accounts.Registration(
      Accounts.UserPatch(
        Some(f.email), Some(f.firstName), Some(f.lastName), Some(f.phoneNumber), Some(f.address),
        Some(f.city), Some(f.state), Some(f.zipCode), Some(f.organizationName), Some(f.organizationDescription),
        Some(RoleOf(f.role)), None, None, None, None, None, None),
      Some(f.password), Some(f.password2))
  }

  /** The page after a submission: the inputs, the page's own error, and the server's answer when the form was sent. */
  datatype RegisterStep = RegisterStep(form: RegisterForm, localError: Option<string>, sent: Option<Accounts.RegisterOutcome>)

  /**
   handleSubmit. A form the client refuses is not sent and keeps its inputs. A
   sent form is cleared back to the initial form exactly when the account was
   created; otherwise it keeps its inputs.
   */
  function SubmitRegister(f: RegisterForm, db: Db, now: nat, acceptable: string -> bool, fieldsValid: bool): (s: RegisterStep)
    ensures s.sent.None? <==> CheckRegisterForm(f).Some?
    ensures s.localError == CheckRegisterForm(f)
    ensures s.sent.Some? ==> s.sent.value == Accounts.Register(db, Payload(f), now, acceptable, fieldsValid)
    ensures s.form == (if s.sent.Some? && s.sent.value.response.Created? then InitialForm else f)
  {
    match CheckRegisterForm(f)
    case Some(msg) => RegisterStep(f, Some(msg), None)
    case None =>
      var o := Accounts.Register(db, Payload(f), now, acceptable, fieldsValid);
      RegisterStep(if o.response.Created? then InitialForm else f, None, Some(o))
  }

  /** A form the client lets through is never refused by the server for differing passwords. */
  lemma ClientPassedNeverMismatch(f: RegisterForm, acceptable: string -> bool, fieldsValid: bool)
    requires CheckRegisterForm(f).None?
    ensures Accounts.CheckRegistration(Payload(f), acceptable, fieldsValid) != Some(PasswordsDiffer)
  {
  }

  /**
   The client lets a charity through with an organization name of spaces only;
   the server trims it and refuses the registration for want of one.
   */
  lemma BlankOrganizationCaughtByServer(f: RegisterForm, acceptable: string -> bool)
    requires f.role == "charity" && f.organizationName != "" && AllWhitespace(f.organizationName)
    requires !RequiredBlank(f) && f.password == f.password2 && NoNul(Trim(f.password)) && acceptable(Trim(f.password))
    requires Trim(f.password) != []
    ensures CheckRegisterForm(f).None?
    ensures Accounts.CheckRegistration(Payload(f), acceptable, true) == Some(OrganizationRequired)
  {
    TrimEmptyIffBlank(f.organizationName);
  }

  /**
   A form the client lets through with a role choice, a non-blank organization
   name for a charity and a password the validators accept creates the account,
   with the password stored trimmed and the chosen role.
   */
  lemma ClientPassedCreates(f: RegisterForm, db: Db, now: nat, acceptable: string -> bool)
    requires CheckRegisterForm(f).None? && RoleOf(f.role) != Unlisted && NoNul(Trim(f.password)) && acceptable(Trim(f.password))
    requires Trim(f.password) != []
    requires f.role == "charity" ==> Trim(f.organizationName) != []
    ensures var s := SubmitRegister(f, db, now, acceptable, true);
      && s.sent.Some? && s.sent.value.response == Created(db.nextId) && s.form == InitialForm
      && s.sent.value.db.users[db.nextId].password == Trim(f.password)
      && s.sent.value.db.users[db.nextId].role == RoleOf(f.role)
  {
    Accounts.RegistrationAccepted(Payload(f), acceptable);
  }

  /** The client and the server both refuse a password of whitespace only, in both languages' sense. */
  lemma BlankPasswordRefusedTwice(f: RegisterForm, acceptable: string -> bool, fieldsValid: bool)
    requires AllWhitespace(f.password) && JsBlank(f.password)
    ensures CheckRegisterForm(f) == Some(FillRequired)
    ensures Accounts.CheckRegistration(Payload(f), acceptable, fieldsValid) == Some(InvalidPayload)
  {
    TrimEmptyIffBlank(f.password);
  }

  /**
   The two languages disagree on the information separators: a password made
   of them passes the client's blank test, and the server strips it to nothing
   and refuses it.
   */
  lemma SeparatorPasswordRefusedByServer(f: RegisterForm, acceptable: string -> bool, fieldsValid: bool)
    requires f.email == "a" && f.firstName == "a" && f.lastName == "a" && f.role == "donor"
    requires f.password == "\U{001F}" && f.password2 == f.password
    ensures CheckRegisterForm(f).None?
    ensures Accounts.CheckRegistration(Payload(f), acceptable, fieldsValid) == Some(InvalidPayload)
  {
    assert !IsJsWhitespace(f.email[0]) && !IsJsWhitespace(f.password[0]);
    TrimEmptyIffBlank(f.password);
  }
}
