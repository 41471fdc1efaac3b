/**
 * The profile page (src/components/Account.tsx): an editable copy of the
 * session's fields, its validation chain, the edit toggle that discards
 * unsaved edits, and the submit handler that calls `updateUser`.
 */
module AccountPage {
  import opened Wrappers
  import opened Patterns
  import opened AuthContext

  const FieldsRequired := "First name, last name, and email are required"
  const InvalidEmail := "Please enter a valid email address"
  const InvalidPhone := "Please enter a valid phone number"
  const ProfileUpdated := "Profile updated successfully!"
  const UpdateFailed := "Failed to update profile. Please try again."

  /** The `name` attributes of the four inputs. */
  datatype Field = FirstName | LastName | Email | Phone

  datatype AccountFields = AccountFields(firstName: string, lastName: string, email: string, phone: string)
  {
    /** `formData[name]`. */
    function Get(f: Field): string {
      match f
      case FirstName => firstName
      case LastName => lastName
      case Email => email
      case Phone => phone
    }

    /** `{ ...formData, [name]: value }`: the named field takes the value, every other keeps its own. */
    function With(f: Field, value: string): (r: AccountFields)
      ensures r.Get(f) == value
      ensures forall g :: g != f ==> r.Get(g) == Get(g)
    {
      match f
      case FirstName => this.(firstName := value)
      case LastName => this.(lastName := value)
      case Email => this.(email := value)
      case Phone => this.(phone := value)
    }

    /** `updateUser(formData)` passes all four fields, the phone even when it is empty. */
    function AsPatch(): UserPatch {
      UserPatch(None, Some(email), Some(firstName), Some(lastName), Some(phone))
    }
  }

  /** `{ firstName: user?.firstName || '', ... }`: a missing session or field becomes the empty string. */
  function FieldsOf(user: Option<User>): AccountFields {
    match user
    case None => AccountFields("", "", "", "")
    case Some(u) => AccountFields(u.firstName, u.lastName, u.email, u.phone.GetOr(""))
  }

  /** First name, last name or email is empty. */
  predicate MissingRequired(f: AccountFields) {
    f.firstName == "" || f.lastName == "" || f.email == ""
  }

  /** `validateForm`: the message of the first check that fails, or none. */
  function ValidateForm(f: AccountFields): (r: Option<string>)
    ensures MissingRequired(f) ==> r == Some(FieldsRequired)
    ensures !MissingRequired(f) && !IsValidEmail(f.email) ==> r == Some(InvalidEmail)
    ensures !MissingRequired(f) && IsValidEmail(f.email) && f.phone != "" && !IsValidPhone(f.phone)
      ==> r == Some(InvalidPhone)
    ensures r == None <==>
      !MissingRequired(f) && IsValidEmail(f.email) && (f.phone == "" || IsValidPhone(f.phone))
  {
    if MissingRequired(f) then Some(FieldsRequired)
    else if !IsValidEmail(f.email) then Some(InvalidEmail)
    else if f.phone != "" && !IsValidPhone(f.phone) then Some(InvalidPhone)
    else None
  }

  /** Past the required and email checks, an empty phone passes, and a non-empty one passes iff all its characters are allowed. */
  lemma PhoneRule(f: AccountFields)
    requires !MissingRequired(f) && IsValidEmail(f.email)
    ensures f.phone == "" ==> ValidateForm(f) == None
    ensures f.phone != "" ==>
      (ValidateForm(f) == None <==> forall k :: 0 <= k < |f.phone| ==> PhoneChar(f.phone[k]))
  {
  }

  /**
   * Saving the form unedited leaves the session as it was, except that a
   * missing phone is stored as the empty string.
   */
  lemma SaveUnedited(u: User)
    ensures MergeUser(u, FieldsOf(Some(u)).AsPatch()) == u.(phone := Some(u.phone.GetOr("")))
  {
  }

  /**
   * Saving the form makes the session exactly the form's four values, with the
   * session's id kept: the form supplies every profile field and no id.
   */
  lemma ProfileSave(u: User, f: AccountFields)
    ensures MergeUser(u, f.AsPatch()) == User(u.id, f.email, f.firstName, f.lastName, Some(f.phone))
  {
  }

  /** Saving the form never changes a stored account's id or password. */
  lemma ProfileSaveKeepsIdAndPassword(r: StoredUser, f: AccountFields)
    ensures MergeStored(r, f.AsPatch()).id == r.id
    ensures MergeStored(r, f.AsPatch()).password == r.password
    ensures WithoutPassword(MergeStored(r, f.AsPatch())) == User(r.id, f.email, f.firstName, f.lastName, Some(f.phone))
  {
  }

  /** Reopening the form on the session a save produced shows exactly what was saved. */
  lemma ReopenAfterSave(u: User, f: AccountFields)
    ensures FieldsOf(Some(MergeUser(u, f.AsPatch()))) == f
  {
  }

  /** Without a session the form opens with all four fields empty. */
  lemma OpenWithoutSession()
    ensures FieldsOf(None) == AccountFields("", "", "", "")
    ensures MissingRequired(FieldsOf(None))
  {
  }

  /**
   * A save through the form keeps a session that some stored account backs,
   * whether or not ids are unique: the first account with the session id gets
   * the same four values the session gets.
   */
  lemma {:induction false} ProfileSaveKeepsSessionBacked(s: AuthState, f: AccountFields)
    requires SessionBacked(s)
    ensures SessionBacked(UpdateStep(s, f.AsPatch()).0)
  {
    if s.user.Some? {
      var u := s.user.value;
      var k :| 0 <= k < |s.users| && WithoutPassword(s.users[k]) == u;
      assert Matches(s.users[k], IdIs(u.id));
      var j := FirstMatch(s.users, IdIs(u.id)).value;
      var t := UpdateStep(s, f.AsPatch()).0;
      assert t.users[j] == MergeStored(s.users[j], f.AsPatch());
      ProfileSaveKeepsIdAndPassword(s.users[j], f);
      assert WithoutPassword(t.users[j]) == t.user.value;
    }
  }

  class AccountForm {
    var form: AccountFields
    var isEditing: bool
    var error: string
    var success: string
    const auth: AuthProvider

    /** The component mounts with the session's fields and not editing. */
    constructor (auth: AuthProvider)
      ensures this.auth == auth
      ensures form == FieldsOf(auth.user) && !isEditing && error == "" && success == ""
    {
      this.auth := auth;
      form := FieldsOf(auth.user);
      isEditing := false;
      error := "";
      success := "";
    }

    /** `handleChange`: only the field the input names changes. */
    method HandleChange(f: Field, value: string)
      modifies this`form
      ensures form == old(form).With(f, value)
    {
      form := form.With(f, value);
    }

    /** `handleEditToggle`: cancelling an edit reloads the session's fields and clears both messages. */
    method HandleEditToggle()
      modifies this`form, this`isEditing, this`error, this`success
      ensures isEditing == !old(isEditing)
      ensures old(isEditing) ==> form == FieldsOf(auth.user) && error == "" && success == ""
      ensures !old(isEditing) ==> form == old(form) && error == old(error) && success == old(success)
    {
      if isEditing {
        form := FieldsOf(auth.user);
        error := "";
        success := "";
      }
      isEditing := !isEditing;
    }

    /**
     * `handleSubmit`. A failing validation sets its message and never reaches
     * the store; otherwise `updateUser(formData)` runs, and its result selects
     * the success message (leaving edit mode) or the failure message.
     */
    method HandleSubmit()
      modifies this`isEditing, this`error, this`success, auth
      ensures form == old(form)
      ensures var v := ValidateForm(form);
        && (v.Some? ==>
          && error == v.value && success == "" && isEditing == old(isEditing)
          && auth.State() == old(auth.State()))
        && (v.None? ==>
          var (t, ok) := UpdateStep(old(auth.State()), form.AsPatch());
          && auth.State() == t
          && (ok ==> success == ProfileUpdated && error == "" && !isEditing)
          && (!ok ==> error == UpdateFailed && success == "" && isEditing == old(isEditing)))
    {
      error := "";
      success := "";
      var validationError := ValidateForm(form);
      if validationError.Some? {
        error := validationError.value;
        return;
      }
      var updated := auth.UpdateUser(form.AsPatch());
      if updated {
        success := ProfileUpdated;
        isEditing := false;
      } else {
        error := UpdateFailed;
      }
    }

    /** `handleLogout`: the store's `logout`. */
    method HandleLogout()
      modifies auth
      ensures auth.State() == LogoutStep(old(auth.State()))
    {
      auth.Logout();
    }
  }
}
