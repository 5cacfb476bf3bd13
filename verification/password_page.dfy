/**
 The change-password dialog of the profile page: the new password is typed
 twice and checked on the client before the old and new values are posted to
 the change-password endpoint, which receives the new value in both of its
 new-password fields.
 */
module PasswordPage {
  import opened Wrappers
  import opened Text
  import opened Fields
  import opened Users
  import opened Http
  import opened Store
  import Accounts

  datatype PasswordForm = PasswordForm(oldPassword: string, newPassword: string, confirmPassword: string)

  const EmptyPasswordForm := PasswordForm("", "", "")

  const NewPasswordsDiffer := "New passwords do not match"
  const TooShort := "New password must be at least 8 characters long"

  /** The client's minimum length, counted on the value as typed. */
  const MinLength := 8

  /** The client-side checks: the confirmation first, then the length. */
  function CheckPasswordForm(f: PasswordForm): (err: Option<string>)
    ensures err == Some(NewPasswordsDiffer) <==> f.newPassword != f.confirmPassword
    ensures err == Some(TooShort) <==> f.newPassword == f.confirmPassword && |f.newPassword| < MinLength
    ensures err.None? <==> f.newPassword == f.confirmPassword && |f.newPassword| >= MinLength
  {
    if f.newPassword != f.confirmPassword then Some(NewPasswordsDiffer)
    else if |f.newPassword| < MinLength then Some(TooShort)
    else None
  }

  /** The body the page posts: the new value is sent as both new passwords; the confirmation is not sent. */
  function Request(f: PasswordForm): (p: Accounts.PasswordChange)
    ensures p.newPassword == p.newPassword2 == Some(f.newPassword)
    ensures p.oldPassword == Some(f.oldPassword)
  {
    Accounts.PasswordChange(Some(f.oldPassword), Some(f.newPassword), Some(f.newPassword))
  }

  /** The dialog after a submission: its inputs, whether it is open, the page's error, and the server's answer when sent. */
  datatype PasswordStep = PasswordStep(form: PasswordForm, dialogOpen: bool, error: Option<string>, sent: Option<Outcome>)

  /**
   handlePasswordSubmit for the signed-in user `u`. A form the client refuses is
   not sent; a sent one closes the dialog and clears the inputs exactly when the
   server accepts the change, and otherwise stays as it was.
   */
  function SubmitPassword(f: PasswordForm, dialogOpen: bool, db: Db, u: User, acceptable: string -> bool): (s: PasswordStep)
    requires SignedIn(db, Authenticated(u))
    ensures s.sent.None? <==> CheckPasswordForm(f).Some?
    ensures s.error == CheckPasswordForm(f)
    ensures s.sent.Some? ==> s.sent.value == Accounts.ChangePassword(db, Authenticated(u), Request(f), acceptable)
    ensures s.sent.Some? && s.sent.value.response == Ok ==> s.form == EmptyPasswordForm && !s.dialogOpen
    ensures !(s.sent.Some? && s.sent.value.response == Ok) ==> s.form == f && s.dialogOpen == dialogOpen
  {
    match CheckPasswordForm(f)
    case Some(msg) => PasswordStep(f, dialogOpen, Some(msg), None)
    case None =>
      var o := Accounts.ChangePassword(db, Authenticated(u), Request(f), acceptable);
      if o.response == Ok then PasswordStep(EmptyPasswordForm, false, None, Some(o))
      else PasswordStep(f, dialogOpen, None, Some(o))
  }

  /** Because the page repeats the new value, the server never refuses a sent change for differing new passwords. */
  lemma SentNeverMismatch(f: PasswordForm, db: Db, u: User, acceptable: string -> bool)
    requires SignedIn(db, Authenticated(u))
    ensures Accounts.CheckPasswordChange(Request(f), acceptable) != Accounts.Mismatch
    ensures Accounts.ChangePassword(db, Authenticated(u), Request(f), acceptable).response != BadRequest(PasswordsDiffer)
  {
  }

  /**
   With the right old password and a new one the validators accept, the change
   goes through: the stored password becomes the trimmed new value and the
   dialog closes with its inputs cleared.
   */
  lemma RightOldPasswordChanges(f: PasswordForm, dialogOpen: bool, db: Db, u: User, acceptable: string -> bool)
    requires SignedIn(db, Authenticated(u)) && CheckPasswordForm(f).None?
    requires Trim(f.oldPassword) == u.password && u.password != [] && NoNul(u.password)
    requires Trim(f.newPassword) != [] && NoNul(Trim(f.newPassword)) && acceptable(Trim(f.newPassword))
    ensures var s := SubmitPassword(f, dialogOpen, db, u, acceptable);
      && s.sent.Some? && s.sent.value.response == Ok
      && s.sent.value.db.users[u.id].password == Trim(f.newPassword)
      && s.form == EmptyPasswordForm && !s.dialogOpen
  {
    var next := Trim(f.newPassword);
    assert Accounts.CheckPasswordChange(Request(f), acceptable) == Accounts.Passwords(u.password, next);
    var o := Accounts.ChangePassword(db, Authenticated(u), Request(f), acceptable);
    assert o.response == Ok;
    assert o.db.users == db.users[u.id := u.(password := next)];
  }

  /**
   The client counts leading spaces toward its minimum while the server stores
   the trimmed value, so a short password padded with spaces is set as it is.
   */
  lemma PaddingCountsTowardMinimum(w: string, t: string, db: Db, u: User, acceptable: string -> bool)
    requires SignedIn(db, Authenticated(u))
    requires AllWhitespace(w) && t != [] && Trimmed(t) && |w| + |t| >= MinLength
    requires u.password != [] && Trimmed(u.password) && NoNul(u.password) && NoNul(t) && acceptable(t)
    ensures var f := PasswordForm(u.password, w + t, w + t);
      var s := SubmitPassword(f, true, db, u, acceptable);
      && CheckPasswordForm(f).None?
      && s.sent.Some? && s.sent.value.response == Ok && s.sent.value.db.users[u.id].password == t
  {
    var f := PasswordForm(u.password, w + t, w + t);
    assert CheckPasswordForm(f).None? by {
      assert |f.newPassword| == |w| + |t|;
    }
    assert Trim(f.newPassword) == t && Trim(f.oldPassword) == u.password by {
      TrimPadded(w, t);
      TrimOfTrimmed(u.password);
    }
    RightOldPasswordChanges(f, true, db, u, acceptable);
  }
}
