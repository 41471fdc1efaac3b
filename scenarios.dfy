/**
 * How the forms and the store fit together: what one form's validation
 * implies for the others, and two end-to-end scenarios driven through the
 * components' handlers.
 */
module Scenarios {
  import opened Wrappers
  import opened AuthContext
  import RegisterPage
  import AccountPage
  import LoginPage

  /** Credentials the registration form accepts also pass the login form's checks. */
  lemma RegisteredCredentialsPassLoginChecks(d: RegisterPage.RegisterFields)
    requires RegisterPage.ValidateForm(d) == None
    ensures LoginPage.CheckInput(d.email, d.password) == None
  {
  }

  /** The session of an account registered through the form opens in the profile page with fields that pass its validation. */
  lemma RegisteredProfilePassesAccountChecks(d: RegisterPage.RegisterFields, id: string)
    requires RegisterPage.ValidateForm(d) == None
    ensures AccountPage.ValidateForm(AccountPage.FieldsOf(Some(User(id, d.email, d.firstName, d.lastName, None)))) == None
  {
  }

  /** Typing `d` into the registration form's five inputs, one after another. */
  method FillIn(register: RegisterPage.RegisterForm, d: RegisterPage.RegisterFields)
    modifies register`form
    ensures register.form == d
  {
    register.HandleChange(RegisterPage.Email, d.email);
    register.HandleChange(RegisterPage.Password, d.password);
    register.HandleChange(RegisterPage.ConfirmPassword, d.confirmPassword);
    register.HandleChange(RegisterPage.FirstName, d.firstName);
    register.HandleChange(RegisterPage.LastName, d.lastName);
  }

  /**
   * A fresh page over `users`: fill in and submit the registration form, then
   * the login form with the same email and password. Registration succeeds
   * exactly when the form validates and the email is free, and then the login
   * yields the new account's session.
   */
  method SignUpThenSignIn(users: seq<StoredUser>, d: RegisterPage.RegisterFields, id: string)
    returns (registered: bool, loggedIn: bool, session: Option<User>)
    ensures registered <==> RegisterPage.ValidateForm(d) == None && !EmailTaken(users, d.email)
    ensures registered ==> loggedIn && session == Some(User(id, d.email, d.firstName, d.lastName, None))
  {
    var auth := new AuthProvider(users, None);
    auth.RestoreSession();
    var register := new RegisterPage.RegisterForm(auth);
    FillIn(register, d);
    ghost var before := auth.State();
    registered := register.HandleSubmit(id);
    loggedIn := false;
    if RegisterPage.ValidateForm(d).None? {
      assert (auth.State(), registered) == RegisterStep(before, d.email, d.password, d.firstName, d.lastName, id);
      RegisterResult(before, d.email, d.password, d.firstName, d.lastName, id);
      if registered {
        RegisterThenLogin(before, d.email, d.password, d.firstName, d.lastName, id);
        RegisteredCredentialsPassLoginChecks(d);
        ghost var registeredState := auth.State();
        var login := new LoginPage.LoginForm(auth);
        login.ChangeEmail(d.email);
        login.ChangePassword(d.password);
        assert auth.State() == registeredState;
        assert LoginPage.CheckInput(login.email, login.password) == None;
        loggedIn := login.HandleSubmit();
        assert (auth.State(), loggedIn) == LoginStep(registeredState, d.email, d.password);
        assert auth.user == Some(User(id, d.email, d.firstName, d.lastName, None));
      }
    }
    session := auth.user;
  }

  /**
   * Two accounts; the first logs in and sets only its phone. The session and
   * the first account carry the new phone, and the second account is untouched.
   */
  method UpdatePhoneOfOneAccount() returns (session: Option<User>, users: seq<StoredUser>)
    ensures session == Some(User("1", "a@x.com", "A", "B", Some("555-1234")))
    ensures users == [
      StoredUser("1", "a@x.com", "secret1", "A", "B", Some("555-1234")),
      StoredUser("2", "b@x.com", "secret2", "C", "D", None)]
  {
    var auth := new AuthProvider([], None);
    var ok := auth.Register("a@x.com", "secret1", "A", "B", "1");
    assert ok;
    ok := auth.Register("b@x.com", "secret2", "C", "D", "2");
    assert auth.users[0].email != "b@x.com";
    assert ok;
    ok := auth.Login("a@x.com", "secret1");
    assert Matches(auth.users[0], CredentialsAre("a@x.com", "secret1"));
    assert Matches(auth.users[0], IdIs("1"));
    ok := auth.UpdateUser(UserPatch(None, None, None, None, Some("555-1234")));
    session := auth.user;
    users := auth.users;
  }
}
