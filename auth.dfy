/**
 * The admin decision `isAdmin()`: the configured admin email (the
 * environment variable ADMIN_EMAIL, possibly unset) and the session's user
 * (possibly absent, possibly without an email) are explicit inputs.
 */
module Auth {
  import opened Wrappers
  import opened Text

  /** The authenticated user the session yields. */
  datatype User = User(email: Option<string>)

  /** The email an admin must have, if one is configured: set and non-empty. */
  predicate Configured(adminEmail: Option<string>) {
    adminEmail.Some? && adminEmail.value != []
  }

  /**
   * Fail-closed: without a non-empty configured email nobody is admin;
   * otherwise the user is admin exactly when their email equals it
   * character for character.
   */
  function IsAdmin(adminEmail: Option<string>, user: Option<User>): (r: bool)
    ensures r ==> Configured(adminEmail) && user.Some? && user.value.email.Some?
    ensures r ==> user.value.email.value == adminEmail.value
    ensures Configured(adminEmail) && user.Some? && user.value.email == adminEmail ==> r
  {
    if adminEmail.None? || adminEmail.value == "" then false
    else match user
      case None => false
      case Some(u) => u.email == adminEmail
  }

  /** An unset or empty ADMIN_EMAIL decides alone: the session makes no difference. */
  lemma UnconfiguredIgnoresSession(adminEmail: Option<string>, u1: Option<User>, u2: Option<User>)
    requires !Configured(adminEmail)
    ensures IsAdmin(adminEmail, u1) == IsAdmin(adminEmail, u2) == false
  {
  }

  /** No trimming and no case folding: an email that differs in case or by a space is refused. */
  lemma ExactMatchOnly()
    ensures !IsAdmin(Some("admin@example.com"), Some(User(Some("Admin@example.com"))))
    ensures !IsAdmin(Some("admin@example.com"), Some(User(Some("admin@example.com "))))
    ensures IsAdmin(Some("admin@example.com"), Some(User(Some("admin@example.com"))))
  {
    assert "Admin@example.com"[0] != "admin@example.com"[0];
    assert |"admin@example.com "| != |"admin@example.com"|;
  }

  /**
   * No case folding, for every configured email: a user whose email is the
   * lower-cased form of an admin email holding an upper-case letter is refused.
   */
  lemma CaseVariantRefused(adminEmail: string)
    requires !NoAsciiUpper(adminEmail)
    ensures !IsAdmin(Some(adminEmail), Some(User(Some(ToLower(adminEmail)))))
  {
  }

  /**
   * No trimming, for every configured email: any padding before or after it
   * (whitespace included) makes the user's email a different one, refused.
   */
  lemma PaddedVariantRefused(adminEmail: string, pad: string)
    requires pad != []
    ensures !IsAdmin(Some(adminEmail), Some(User(Some(adminEmail + pad))))
    ensures !IsAdmin(Some(adminEmail), Some(User(Some(pad + adminEmail))))
  {
  }
}
