/**
  The decision the editor's change-password form makes: two local checks on
  the new password, then a lookup of the stored password, then the update.
*/
module PasswordChange {
  import opened Entities

  datatype PasswordForm = PasswordForm(currentPassword: string, newPassword: string, confirmPassword: string)

  const EmptyForm := PasswordForm("", "", "")

  const MinPasswordLength := 6

  datatype PasswordOutcome =
    | Mismatch       // new password and confirmation differ
    | TooShort       // new password shorter than the minimum
    | FetchFailed    // the stored password could not be read
    | WrongCurrent   // the stored password is not the one given as current
    | UpdateFailed   // the update was issued and the store reported an error
    | Changed        // the update was issued and succeeded

  /** The outcome of one submission. `stored` is the answer of the lookup of the
      stored password and `updateOk` that of the update; each is consulted
      only when the code reaches the corresponding store call. */
  function Decide(form: PasswordForm, stored: Fetched<string>, updateOk: bool): (r: PasswordOutcome)
    ensures r == Mismatch <==> form.newPassword != form.confirmPassword
    ensures r == TooShort <==> form.newPassword == form.confirmPassword && |form.newPassword| < MinPasswordLength
    ensures IssuesUpdate(r) <==>
              form.newPassword == form.confirmPassword && |form.newPassword| >= MinPasswordLength
              && stored == Found(form.currentPassword)
    ensures r == FetchFailed <==>
              form.newPassword == form.confirmPassword && |form.newPassword| >= MinPasswordLength
              && stored.FetchError?
    ensures r == WrongCurrent <==>
              form.newPassword == form.confirmPassword && |form.newPassword| >= MinPasswordLength
              && stored.Found? && stored.value != form.currentPassword
    ensures r == Changed <==> IssuesUpdate(r) && updateOk
  {
    if form.newPassword != form.confirmPassword then Mismatch
    else if |form.newPassword| < MinPasswordLength then TooShort
    else match stored
      case FetchError => FetchFailed
      case Found(p) =>
        if p != form.currentPassword then WrongCurrent
        else if updateOk then Changed
        else UpdateFailed
  }

  /** Whether the outcome is one in which the new password was sent to the store. */
  predicate IssuesUpdate(o: PasswordOutcome)
  {
    o == UpdateFailed || o == Changed
  }

  /** Whether the outcome is one in which the stored password was looked up. */
  predicate FetchesStored(o: PasswordOutcome)
  {
    o != Mismatch && o != TooShort
  }

  /** The two local checks come first and in this order: when either rejects,
      the outcome does not depend on what the store would have answered, and
      nothing is fetched or written. */
  lemma ValidationPrecedesFetch(form: PasswordForm, s1: Fetched<string>, u1: bool, s2: Fetched<string>, u2: bool)
    requires form.newPassword != form.confirmPassword || |form.newPassword| < MinPasswordLength
    ensures Decide(form, s1, u1) == Decide(form, s2, u2)
    ensures !FetchesStored(Decide(form, s1, u1)) && !IssuesUpdate(Decide(form, s1, u1))
    ensures form.newPassword != form.confirmPassword ==> Decide(form, s1, u1) == Mismatch
  {
  }

  function Message(o: PasswordOutcome): (m: string)
    ensures m != ""
    ensures (o == Changed) <==> m == "\U{2705} Password changed successfully!"
  {
    match o
    case Mismatch => "\U{274C} New passwords do not match"
    case TooShort => "\U{274C} Password must be at least 6 characters"
    case WrongCurrent => "\U{274C} Current password is incorrect"
    case FetchFailed => "\U{274C} Error changing password"
    case UpdateFailed => "\U{274C} Error changing password"
    case Changed => "\U{2705} Password changed successfully!"
  }
}
