/**
 * The registration form (src/components/Register.tsx): its five fields, the
 * ordered validation chain, and the submit handler that calls `register` only
 * when validation passes.
 */
module RegisterPage {
  import opened Wrappers
  import opened JsText
  import opened Patterns
  import opened AuthContext

  const FillAllFields := "Please fill in all fields"
  const InvalidEmail := "Please enter a valid email address"
  const PasswordTooShort := "Password must be at least 6 characters long"
  const PasswordMismatch := "Passwords do not match"
  const EmailExists := "An account with this email already exists"

  /** The shortest password the form accepts, in UTF-16 code units. */
  const MinPasswordLength := 6

  /** The `name` attributes of the five inputs. */
  datatype Field = Email | Password | ConfirmPassword | FirstName | LastName

  datatype RegisterFields = RegisterFields(
    email: string,
    password: string,
    confirmPassword: string,
    firstName: string,
    lastName: string)
  {
    /** `formData[name]`. */
    function Get(f: Field): string {
      match f
      case Email => email
      case Password => password
      case ConfirmPassword => confirmPassword
      case FirstName => firstName
      case LastName => lastName
    }

    /** `{ ...formData, [name]: value }`: the named field takes the value, every other keeps its own. */
    function With(f: Field, value: string): (r: RegisterFields)
      ensures r.Get(f) == value
      ensures forall g :: g != f ==> r.Get(g) == Get(g)
    {
      match f
      case Email => this.(email := value)
      case Password => this.(password := value)
      case ConfirmPassword => this.(confirmPassword := value)
      case FirstName => this.(firstName := value)
      case LastName => this.(lastName := value)
    }
  }

  /** Some field is the empty string (the only falsy string). */
  predicate AnyEmpty(d: RegisterFields) {
    d.email == "" || d.password == "" || d.confirmPassword == "" || d.firstName == "" || d.lastName == ""
  }

  /** `validateForm`: the message of the first check that fails, or none. */
  function ValidateForm(d: RegisterFields): (r: Option<string>)
    ensures AnyEmpty(d) ==> r == Some(FillAllFields)
    ensures !AnyEmpty(d) && !IsValidEmail(d.email) ==> r == Some(InvalidEmail)
    ensures !AnyEmpty(d) && IsValidEmail(d.email) && Utf16Length(d.password) < MinPasswordLength
      ==> r == Some(PasswordTooShort)
    ensures !AnyEmpty(d) && IsValidEmail(d.email) && Utf16Length(d.password) >= MinPasswordLength && d.password != d.confirmPassword
      ==> r == Some(PasswordMismatch)
    ensures r == None <==>
      && !AnyEmpty(d) && IsValidEmail(d.email)
      && Utf16Length(d.password) >= MinPasswordLength && d.password == d.confirmPassword
  {
    if AnyEmpty(d) then Some(FillAllFields)
    else if !IsValidEmail(d.email) then Some(InvalidEmail)
    else if Utf16Length(d.password) < MinPasswordLength then Some(PasswordTooShort)
    else if d.password != d.confirmPassword then Some(PasswordMismatch)
    else None
  }

  /**
   * A form the validation accepts has a pattern-valid email and a confirmed
   * password of at least six UTF-16 code units, hence at least three characters.
   */
  lemma AcceptedForm(d: RegisterFields)
    requires ValidateForm(d) == None
    ensures MatchesEmailPattern(d.email)
    ensures |d.password| >= 3 && d.password == d.confirmPassword
  {
    EmailCharacterisation(d.email);
  }

  /** A form with every field filled, a valid email and a confirmed password of six or more UTF-16 code units is accepted. */
  lemma LongConfirmedPasswordAccepted(d: RegisterFields)
    requires !AnyEmpty(d) && MatchesEmailPattern(d.email)
    requires Utf16Length(d.password) >= MinPasswordLength && d.password == d.confirmPassword
    ensures ValidateForm(d) == None
  {
    EmailCharacterisation(d.email);
  }

  class RegisterForm {
    var form: RegisterFields
    var error: string
    var loading: bool
    const auth: AuthProvider

    constructor (auth: AuthProvider)
      ensures this.auth == auth
      ensures form == RegisterFields("", "", "", "", "") && error == "" && !loading
    {
      this.auth := auth;
      form := RegisterFields("", "", "", "", "");
      error := "";
      loading := false;
    }

    /** `handleChange`: only the field the input names changes. */
    method HandleChange(f: Field, value: string)
      modifies this`form
      ensures form == old(form).With(f, value)
    {
      form := form.With(f, value);
    }

    /**
     * `handleSubmit`. A failing validation sets its message and never reaches
     * the store. Otherwise `register` runs with the form's email, password,
     * first and last name (not the confirmation) and `id` standing for
     * `Date.now().toString()`; `false` becomes the duplicate-email message and
     * `true` leads to the login page.
     */
    method HandleSubmit(id: string) returns (toLogin: bool)
      modifies this`error, this`loading, auth
      ensures var v := ValidateForm(old(form));
        && (v.Some? ==>
          && error == v.value && loading == old(loading) && !toLogin
          && auth.State() == old(auth.State()))
        && (v.None? ==>
          && (auth.State(), toLogin) == RegisterStep(old(auth.State()), form.email, form.password, form.firstName, form.lastName, id)
          && error == (if toLogin then "" else EmailExists)
          && !loading)
    {
      error := "";
      var validationError := ValidateForm(form);
      if validationError.Some? {
        error := validationError.value;
        return false;
      }
      loading := true;
      var success := auth.Register(form.email, form.password, form.firstName, form.lastName, id);
      if success {
        toLogin := true;
      } else {
        error := EmailExists;
        toLogin := false;
      }
      loading := false;
    }
  }
}
