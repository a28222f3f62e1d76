/** The sign-in page: the ordered form checks, the login and signup
    handlers that record the user in browser storage, and the mode switch
    that clears the form. */
module UserPage {
  import opened Wrappers
  import opened Text

  datatype AuthMode = Login | Signup

  const MinPasswordLength: nat := 6

  const EmailRequired: string := "Email is required"
  const PasswordRequired: string := "Password is required"
  const PasswordsDiffer: string := "Passwords do not match"
  const PasswordTooShort: string := "Password must be at least 6 characters"

  /** The message `validateForm` leaves in `error`; "" when the form passes.
      The checks run in order and the first failure wins: a blank email, a
      blank password, a signup whose confirmation differs, a password (as
      typed, untrimmed) shorter than six characters. */
  function ValidateForm(mode: AuthMode, email: string, password: string, confirm: string): (r: string)
    ensures r == EmailRequired <==> AllSpace(email)
    ensures r == PasswordRequired <==> !AllSpace(email) && AllSpace(password)
    ensures r == PasswordsDiffer <==>
              !AllSpace(email) && !AllSpace(password) && mode == Signup && password != confirm
    ensures r == PasswordTooShort <==>
              !AllSpace(email) && !AllSpace(password) && !(mode == Signup && password != confirm)
              && |password| < MinPasswordLength
    ensures r == "" <==>
              !AllSpace(email) && !AllSpace(password) && !(mode == Signup && password != confirm)
              && |password| >= MinPasswordLength
  {
    TrimEmptyIffAllSpace(email);
    TrimEmptyIffAllSpace(password);
    if Trim(email) == "" then EmailRequired
    else if Trim(password) == "" then PasswordRequired
    else if mode == Signup && password != confirm then PasswordsDiffer
    else if |password| < MinPasswordLength then PasswordTooShort
    else ""
  }

  /** Edge cases of the order: six spaces are a blank password, not a short
      one; a password padded to six characters with spaces is long enough;
      in login mode the confirmation is never compared. */
  lemma ValidateFormEdges(email: string, confirm: string)
    requires !AllSpace(email)
    ensures ValidateForm(Signup, email, "      ", confirm) == PasswordRequired
    ensures ValidateForm(Login, email, "abc   ", confirm) == ""
    ensures ValidateForm(Login, email, "abc", confirm) == PasswordTooShort
    ensures ValidateForm(Signup, email, "abcdef", "abcdeg") == PasswordsDiffer
  {
    assert IsSpace("      "[0]);
    assert !AllSpace("abc   ") by { assert "abc   "[0] == 'a'; }
    assert !AllSpace("abc") by { assert "abc"[0] == 'a'; }
    assert !AllSpace("abcdef") by { assert "abcdef"[0] == 'a'; }
    assert "abcdef" != "abcdeg" by { assert "abcdef"[5] != "abcdeg"[5]; }
  }

  /** The success message: "Welcome back, <email>!" after a login,
      "Account created for <email>!" after a signup. */
  function Greeting(welcome: bool, email: string): string {
    (if welcome then "Welcome back, " else "Account created for ") + email + "!"
  }

  /** The mock token stored at time `now`. */
  function TokenAt(now: nat): string {
    "token_" + NatToString(now)
  }

  class AuthForm {
    var mode: AuthMode
    var email: string
    var password: string
    var confirmPassword: string
    var error: string
    var success: string
    /** The `user_email` and `auth_token` entries of local storage. */
    var storedEmail: Option<string>
    var authToken: Option<string>

    constructor ()
      ensures mode == Login && email == "" && password == "" && confirmPassword == ""
      ensures error == "" && success == "" && storedEmail == None && authToken == None
    {
      mode, email, password, confirmPassword := Login, "", "", "";
      error, success, storedEmail, authToken := "", "", None, None;
    }

    /** `validateForm()`: writes the message and says whether it is empty. */
    method Validate() returns (ok: bool)
      modifies this
      ensures error == ValidateForm(mode, email, password, confirmPassword)
      ensures ok <==> error == ""
      ensures mode == old(mode) && email == old(email) && password == old(password)
      ensures confirmPassword == old(confirmPassword) && success == old(success)
      ensures storedEmail == old(storedEmail) && authToken == old(authToken)
    {
      error := ValidateForm(mode, email, password, confirmPassword);
      ok := error == "";
    }

    /** The submit button at time `now`: `handleLogin` in login mode,
        `handleSignup` in signup mode. Only a form that passes gets the
        success message ("Welcome back, …" after a login, "Account created
        for …" after a signup) and the stored email and token; a failing one
        keeps the earlier message and storage. */
    method Submit(now: nat)
      modifies this
      ensures error == ValidateForm(mode, email, password, confirmPassword)
      ensures error == "" ==> success == Greeting(mode == Login, email)
      ensures error == "" ==> storedEmail == Some(email) && authToken == Some(TokenAt(now))
      ensures error != "" ==> success == old(success)
      ensures error != "" ==> storedEmail == old(storedEmail) && authToken == old(authToken)
      ensures mode == old(mode) && email == old(email) && password == old(password)
      ensures confirmPassword == old(confirmPassword)
    {
      var ok := Validate();
      if ok {
        var greeting, token := Greeting(mode == Login, email), TokenAt(now);
        success, storedEmail, authToken := greeting, Some(email), Some(token);
      }
    }

    /** The "Sign up" / "Sign in" link: switches mode and clears the three
        fields and both messages. */
    method SwitchMode()
      modifies this
      ensures mode == (if old(mode) == Login then Signup else Login)
      ensures email == "" && password == "" && confirmPassword == "" && error == "" && success == ""
      ensures storedEmail == old(storedEmail) && authToken == old(authToken)
    {
      mode := if mode == Login then Signup else Login;
      error := "";
      success := "";
      email := "";
      password := "";
      confirmPassword := "";
    }

    /** Typing in the email field clears the error. */
    method EditEmail(v: string)
      modifies this
      ensures email == v && error == ""
      ensures mode == old(mode) && password == old(password) && confirmPassword == old(confirmPassword)
      ensures success == old(success) && storedEmail == old(storedEmail) && authToken == old(authToken)
    {
      email := v;
      error := "";
    }

    /** Typing in the password field clears the error. */
    method EditPassword(v: string)
      modifies this
      ensures password == v && error == ""
      ensures mode == old(mode) && email == old(email) && confirmPassword == old(confirmPassword)
      ensures success == old(success) && storedEmail == old(storedEmail) && authToken == old(authToken)
    {
      password := v;
      error := "";
    }

    /** Typing in the confirmation field clears the error. */
    method EditConfirmPassword(v: string)
      modifies this
      ensures confirmPassword == v && error == ""
      ensures mode == old(mode) && email == old(email) && password == old(password)
      ensures success == old(success) && storedEmail == old(storedEmail) && authToken == old(authToken)
    {
      confirmPassword := v;
      error := "";
    }
  }
}
