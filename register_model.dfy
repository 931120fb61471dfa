/** The registration form and the checks its attributes declare. */
module RegisterModels {
  import opened Wrappers
  import opened DataAnnotations

  datatype RegisterModel = RegisterModel(
    email: Option<string>,
    username: Option<string>,
    password: Option<string>,
    confirmPassword: Option<string>)
  {
    /** The form is valid when every attribute on every property accepts its value. */
    function IsValid(isEmailAddress: string -> bool): (ok: bool)
      ensures ok ==> email.Some? && isEmailAddress(email.value)
      ensures ok ==> username.Some? && 3 <= Utf16Length(username.value) <= 20
      ensures ok ==> password.Some? && 6 <= Utf16Length(password.value) <= 100
      ensures ok ==> confirmPassword == password
    {
      && Required(email) && EmailAddress(email, isEmailAddress)
      && Required(username) && StringLength(username, 20, 3)
      && Required(password) && StringLength(password, 100, 6)
      && Required(confirmPassword) && Compare(confirmPassword, password)
    }
  }

  /**
   * A registration is accepted exactly when all four fields are present and
   * not blank, the email passes the address check, the username is 3 to 20
   * UTF-16 units long, the password 6 to 100, and the confirmation equals
   * the password.
   */
  lemma RegisterAccepted(m: RegisterModel, isEmailAddress: string -> bool)
    ensures m.IsValid(isEmailAddress) <==>
      && m.email.Some? && HasVisibleChar(m.email.value) && isEmailAddress(m.email.value)
      && m.username.Some? && HasVisibleChar(m.username.value) && 3 <= Utf16Length(m.username.value) <= 20
      && m.password.Some? && HasVisibleChar(m.password.value) && 6 <= Utf16Length(m.password.value) <= 100
      && m.confirmPassword == m.password
  {
    RequiredMeansVisible(m.email);
    RequiredMeansVisible(m.username);
    RequiredMeansVisible(m.password);
    RequiredMeansVisible(m.confirmPassword);
  }

  /**
   * Counted in characters, an accepted username has 2 to 20 of them: the
   * bounds are on UTF-16 units, so two characters beyond U+FFFF already
   * meet the minimum of 3.
   */
  lemma AcceptedUsernameCharacters(m: RegisterModel, isEmailAddress: string -> bool)
    requires m.IsValid(isEmailAddress)
    ensures 2 <= |m.username.value| <= 20
    ensures 3 <= |m.password.value| <= 100
  {
    Utf16LengthBounds(m.username.value);
    Utf16LengthBounds(m.password.value);
  }
}
