/**
 * The login form (src/components/Login.tsx): the inline checks of its submit
 * handler and the handler itself, which calls `login` only when they pass.
 */
module LoginPage {
  import opened Wrappers
  import opened Patterns
  import opened AuthContext

  const FillAllFields := "Please fill in all fields"
  const InvalidEmail := "Please enter a valid email address"
  const InvalidCredentials := "Invalid email or password"

  /** The checks at the head of `handleSubmit`: both fields filled, then the email pattern; no password rule. */
  function CheckInput(email: string, password: string): (r: Option<string>)
    ensures email == "" || password == "" ==> r == Some(FillAllFields)
    ensures email != "" && password != "" && !IsValidEmail(email) ==> r == Some(InvalidEmail)
    ensures r == None <==> password != "" && IsValidEmail(email)
  {
    if email == "" || password == "" then Some(FillAllFields)
    else if !IsValidEmail(email) then Some(InvalidEmail)
    else None
  }

  class LoginForm {
    var email: string
    var password: string
    var error: string
    var loading: bool
    const auth: AuthProvider

    constructor (auth: AuthProvider)
      ensures this.auth == auth
      ensures email == "" && password == "" && error == "" && !loading
    {
      this.auth := auth;
      email := "";
      password := "";
      error := "";
      loading := false;
    }

    /** The email input's `onChange`. */
    method ChangeEmail(value: string)
      modifies this`email
      ensures email == value
    {
      email := value;
    }

    /** The password input's `onChange`. */
    method ChangePassword(value: string)
      modifies this`password
      ensures password == value
    {
      password := value;
    }

    /**
     * `handleSubmit`. A failing check sets its message and never reaches the
     * store; otherwise `login` runs with exactly the entered email and
     * password, and `false` becomes the invalid-credentials message.
     */
    method HandleSubmit() returns (loggedIn: bool)
      modifies this`error, this`loading, auth
      ensures var v := CheckInput(email, password);
        && (v.Some? ==>
          && error == v.value && loading == old(loading) && !loggedIn
          && auth.State() == old(auth.State()))
        && (v.None? ==>
          && (auth.State(), loggedIn) == LoginStep(old(auth.State()), email, password)
          && error == (if loggedIn then "" else InvalidCredentials)
          && !loading)
    {
      error := "";
      var validationError := CheckInput(email, password);
      if validationError.Some? {
        error := validationError.value;
        return false;
      }
      loading := true;
      var success := auth.Login(email, password);
      if !success {
        error := InvalidCredentials;
      }
      loggedIn := success;
      loading := false;
    }
  }
}
