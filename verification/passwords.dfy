/** The password rules the account forms share: creating a worker or a manager demands a
    matching pair of at least six characters (the match is checked first), editing a
    worker applies the same rules only when a password was typed, and changing one's own
    password only demands the match. Typing in either password field clears the error. */
module Passwords {

  /** The shortest password the create forms accept. */
  const MinLength: nat := 6

  const MismatchMessage := "Passwords do not match!"

  const TooShortMessage := "Password must be at least 6 characters long!"

  /** The outcome of a password check: accepted, or rejected with the message shown. */
  datatype Check = Accepted | Rejected(message: string)

  /** The create forms' check: the pair must match, and then be at least six long. */
  function CheckNewPassword(password: string, confirm: string): (c: Check)
    ensures c == Accepted <==> password == confirm && |password| >= MinLength
    ensures password != confirm ==> c == Rejected(MismatchMessage)
    ensures password == confirm && |password| < MinLength ==> c == Rejected(TooShortMessage)
  {
    if password != confirm then Rejected(MismatchMessage)
    else if |password| < MinLength then Rejected(TooShortMessage)
    else Accepted
  }

  /** A short pair that does not match is reported as a mismatch, not as too short. */
  lemma MismatchReportedFirst(password: string, confirm: string)
    requires password != confirm && |password| < MinLength
    ensures CheckNewPassword(password, confirm) == Rejected(MismatchMessage)
  {
  }

  /** The worker edit form's check: with both fields empty nothing is checked, otherwise
      the create rule applies. */
  function CheckOptionalPassword(password: string, confirm: string): (c: Check)
    ensures password == "" && confirm == "" ==> c == Accepted
    ensures password != "" || confirm != "" ==> c == CheckNewPassword(password, confirm)
  {
    if password != "" || confirm != "" then CheckNewPassword(password, confirm) else Accepted
  }

  /** The edit form accepts exactly an untouched pair or a pair the create form accepts. */
  lemma OptionalAcceptedIff(password: string, confirm: string)
    ensures CheckOptionalPassword(password, confirm) == Accepted <==>
      (password == "" && confirm == "") || CheckNewPassword(password, confirm) == Accepted
  {
  }

  /** The change-password form's check: only the match. */
  function CheckChangePassword(newPassword: string, confirm: string): (c: Check)
    ensures c == Accepted <==> newPassword == confirm
  {
    if newPassword != confirm then Rejected(MismatchMessage) else Accepted
  }

  /** Changing one's own password has no length rule: a one-letter pair the create forms
      reject is accepted. */
  lemma ChangePasswordHasNoLengthRule()
    ensures CheckChangePassword("a", "a") == Accepted
    ensures CheckNewPassword("a", "a") == Rejected(TooShortMessage)
  {
  }

  /** Whether an input name is one of the two password fields. */
  predicate IsPasswordField(name: string) {
    name == "password" || name == "confirmPassword"
  }

  /** The error shown after typing in field `name`: cleared for the password fields,
      kept for every other field. */
  function ErrorAfterEdit(error: string, name: string): (e: string)
    ensures IsPasswordField(name) ==> e == ""
    ensures !IsPasswordField(name) ==> e == error
  {
    if IsPasswordField(name) then "" else error
  }
}
