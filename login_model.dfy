/** The sign-in form and the checks its attributes declare. */
module LoginModels {
  import opened Wrappers
  import opened DataAnnotations

  datatype LoginModel = LoginModel(
    email: Option<string>,
    password: Option<string>,
    rememberMe: bool,
    returnUrl: Option<string>)
  {
    /** Email and Password are required and Email must look like an address; RememberMe and ReturnUrl carry no attribute. */
    function IsValid(isEmailAddress: string -> bool): (ok: bool)
      ensures ok ==> email.Some? && |email.value| > 0 && isEmailAddress(email.value)
      ensures ok ==> password.Some? && |password.value| > 0
    {
      Required(email) && EmailAddress(email, isEmailAddress) && Required(password)
    }
  }

  /**
   * A sign-in is accepted exactly when the email is present, not blank and
   * passes the address check, and the password is present and not blank,
   * of any length.
   */
  lemma LoginAccepted(m: LoginModel, isEmailAddress: string -> bool)
    ensures m.IsValid(isEmailAddress) <==>
      && m.email.Some? && HasVisibleChar(m.email.value) && isEmailAddress(m.email.value)
      && m.password.Some? && HasVisibleChar(m.password.value)
  {
    RequiredMeansVisible(m.email);
    RequiredMeansVisible(m.password);
  }

  /** RememberMe and ReturnUrl (which may be null) never decide validity. */
  lemma LoginIgnoresOptionalFields(m: LoginModel, isEmailAddress: string -> bool, rememberMe: bool, returnUrl: Option<string>)
    ensures m.(rememberMe := rememberMe, returnUrl := returnUrl).IsValid(isEmailAddress) == m.IsValid(isEmailAddress)
  {
  }

  /** No password is too long: any non-blank password may replace an accepted one. */
  lemma LoginPasswordUnbounded(m: LoginModel, isEmailAddress: string -> bool, password: string)
    requires m.IsValid(isEmailAddress) && HasVisibleChar(password)
    ensures m.(password := Some(password)).IsValid(isEmailAddress)
  {
    RequiredMeansVisible(Some(password));
  }
}
