# Account manager: session store and form validation, modelled in Dafny

The system is a browser-only account demo. Users register, log in, edit their
profile and log out. All state lives in local storage. This project models the
two parts of it that carry logic:

- **The session store** (`AuthProvider`, `src/context/AuthContext.tsx`). It owns
  three slots: the in-memory session `user`, the durable session marker
  (storage key `currentUser`) and the durable account list (storage key `users`,
  kept with plaintext passwords). Its operations are `register`, `login`,
  `logout`, `updateUser`, the mount-time restore of `currentUser`, and
  `isAuthenticated`.
- **The three forms** (`Register.tsx`, `Account.tsx`, `Login.tsx`). Each has an
  ordered chain of input checks that returns the first failing message. Each has
  a submit handler that calls the store only when the checks pass and turns the
  store's boolean into a message. The registration and profile forms also have
  a change handler.

Layout, one module per source file plus shared helpers:

| file | module | contents |
|---|---|---|
| `wrappers.dfy` | `Wrappers` | `Option`, for absent values and optional fields |
| `js_text.dfy` | `JsText` | the regex classes `\s` and `\d`; `String.length` in UTF-16 code units |
| `patterns.dfy` | `Patterns` | the email and phone patterns, and proof that the character-level email test is the regular expression |
| `auth_context.dfy` | `AuthContext` | records, the pure step functions that specify each store operation, the class `AuthProvider`, and the lemmas |
| `register_page.dfy` | `RegisterPage` | registration fields, `ValidateForm`, class `RegisterForm` |
| `account_page.dfy` | `AccountPage` | profile fields, `ValidateForm`, class `AccountForm` |
| `login_page.dfy` | `LoginPage` | `CheckInput`, class `LoginForm` |
| `scenarios.dfy` | `Scenarios` | lemmas linking the forms, and two end-to-end scenarios driven through the handlers |

How the store is specified. Each operation is a pure function on a snapshot
`AuthState(user, currentUser, users)`: `RegisterStep`, `LoginStep`,
`LogoutStep`, `UpdateStep` and `RestoreStep`. The class `AuthProvider` has the
three slots as fields. Its methods update those fields in the same order as the
source, and each method's postcondition says that its result and new state are
those of its step. The lemmas then state what the steps promise. The form
classes keep a reference to the store. Their submit handlers are specified by
the same steps, applied to exactly the arguments the source passes.

Decisions that affect what the proofs mean:

- `find` / `findIndex` are `FirstMatch`: the first index whose record meets a
  `Criterion`, with case-sensitive string equality as `===` has.
- Email regex `/^[^\s@]+@[^\s@]+\.[^\s@]+$/`. It is stated twice.
  `MatchesEmailPattern` follows the regular expression's own structure.
  `IsValidEmail` states it character by character: no whitespace, exactly one
  `@` (counted with a multiset), not in first position, and a `.` in the part
  after the `@` that is neither first nor last there. `EmailCharacterisation`
  proves the two equal on all strings.
- `\s` is the full ECMAScript whitespace set: WhiteSpace and LineTerminator,
  with the Unicode Zs space separators. `\d` is ASCII digits.
- `password.length` counts UTF-16 code units (`Utf16Length`). So a password
  made of three characters outside the Basic Multilingual Plane passes the
  "at least 6" check. `AcceptedForm` records the consequence: an accepted
  password has at least 3 characters.
- `Date.now().toString()` is an `id` parameter. Ids are not assumed unique.
- A `Partial<User>` is a `UserPatch` with one `Option` per field. The profile
  form sends all four of its fields, including an empty phone.

Behaviour of the code a caller may not expect:

- `register` returns a boolean and does not log in. It does not return the new
  account.
- The session is not guaranteed to belong to a stored account. Restore trusts
  the durable marker (`RestoreDoesNotCheckAccounts`). For an arbitrary
  partial patch, an update keeps the session backed by an account when ids
  are unique (`UpdateKeepsSessionBacked`). The profile form's save supplies
  all four profile fields, and it keeps the session backed whatever the ids
  (`AccountPage.ProfileSaveKeepsSessionBacked`).
- `updateUser` does not re-check email uniqueness. `UpdateCanDuplicateEmails`
  gives two accounts that end up with the same email.
- `updateUser` writes the session before the account list. The model claims no
  atomicity for it.

## Model

| member | source | states |
|---|---|---|
| `JsText.Utf16Length` | src/components/Register.tsx:59 | The length the password check uses is at least the number of characters and at most twice that. It equals the number of characters iff no character needs a surrogate pair. |
| `JsText.Utf16LengthChar` | src/components/Register.tsx:59 | One character has length 2 when it lies outside the Basic Multilingual Plane and 1 otherwise. |
| `JsText.Utf16LengthConcat` | src/components/Register.tsx:59 | The length of a concatenation is the sum of the lengths. With `Utf16LengthChar`, the length of every string is its UTF-16 code-unit count. |
| `Patterns.EmailCharacterisation` | src/components/Register.tsx:53-56 | A string matches `^[^\s@]+@[^\s@]+\.[^\s@]+$` iff it has no whitespace, exactly one `@` that is not first, and a `.` after the `@` that is neither first nor last there. |
| `Patterns.ValidEmailMatchesPattern` | src/components/Account.tsx:61-64 | The character-level email test implies the regular expression match: a nonempty `[^\s@]` run, the `@`, a nonempty run, a `.`, and a nonempty run. |
| `Patterns.PatternMatchIsValidEmail` | src/components/Login.tsx:43-47 | A regular expression match implies the character-level test: whitespace nowhere and exactly one `@`. |
| `Patterns.ValidEmailShape` | src/components/Register.tsx:53 | In a valid address, the text before the one `@` and the text after it are made of `[^\s@]` only, and the domain has an inner dot. |
| `AuthContext.FirstMatch` | src/context/AuthContext.tsx:92-94 | `find`/`findIndex`: the result is none iff no record meets the criterion. Otherwise it is an index whose record meets it and no earlier record does. |
| `AuthContext.AuthProvider.IsAuthenticated` | src/context/AuthContext.tsx:156 | `isAuthenticated` is true iff a session is held. Once memory and storage agree, it is true iff the durable marker is present. |
| `AuthContext.AuthProvider.constructor` | src/context/AuthContext.tsx:30 | A new provider starts with no in-memory session, over the storage as found. |
| `AuthContext.AuthProvider.RestoreSession` | src/context/AuthContext.tsx:33-38 | The mount effect sets the in-memory session to the stored marker when one is present and otherwise changes nothing (`RestoreStep`). |
| `AuthContext.AuthProvider.Register` | src/context/AuthContext.tsx:44-79 | Result and new state are those of `RegisterStep`: refuse on an email that is already stored, otherwise append the new account. |
| `AuthContext.AuthProvider.Login` | src/context/AuthContext.tsx:85-109 | Result and new state are those of `LoginStep`: the first account matching both fields becomes the session, without its password, in memory and in storage. |
| `AuthContext.AuthProvider.Logout` | src/context/AuthContext.tsx:115-118 | The new state is `LogoutStep`: both session slots are cleared and the accounts are kept. |
| `AuthContext.AuthProvider.UpdateUser` | src/context/AuthContext.tsx:124-148 | Result and new state are those of `UpdateStep`: with no session nothing changes. Otherwise both session slots get the merge, and the first account with the old session id is merged. |
| `AuthContext.RegisterResult` | src/context/AuthContext.tsx:56-59 | `register` fails iff some stored account has exactly the given email (case-sensitive). A failed `register` leaves the whole state unchanged. |
| `AuthContext.RegisterAppends` | src/context/AuthContext.tsx:62-74 | A successful `register` adds exactly one account at the end, with the given id, email, password and names and no phone. Earlier accounts are unchanged. Neither session slot ever changes, on success or failure. |
| `AuthContext.RegisterKeepsEmailsUnique` | src/context/AuthContext.tsx:56-72 | If stored emails are pairwise distinct before `register`, they are after it. |
| `AuthContext.RegisterTwice` | src/context/AuthContext.tsx:56-59 | After any `register` with an email, a second `register` with the same email fails and changes nothing, whatever its other fields. |
| `AuthContext.LoginResult` | src/context/AuthContext.tsx:92-104 | `login` succeeds iff some account has both the email and the password. On failure nothing changes. The accounts never change. |
| `AuthContext.LoginSession` | src/context/AuthContext.tsx:92-101 | If account `k` is the first with both fields equal, login succeeds with that account's id, email, names and phone (no password) as the session. The same value goes to the durable marker. |
| `AuthContext.LogoutClears` | src/context/AuthContext.tsx:115-118 | Whatever the prior state, `logout` leaves no session in memory or storage and keeps the accounts. Doing it twice is the same as doing it once. |
| `AuthContext.LogoutThenReload` | src/context/AuthContext.tsx:33-38 | After `logout`, a page reload followed by the mount restore gives no session. |
| `AuthContext.UpdateWithoutSession` | src/context/AuthContext.tsx:126 | `updateUser` with no session returns false and changes nothing. |
| `AuthContext.UpdateWithSession` | src/context/AuthContext.tsx:129-143 | With a session, `updateUser` returns true. The session, in memory and in storage, becomes the old session overridden by exactly the supplied fields. The account list keeps its length and is unchanged when no account has the session id. |
| `AuthContext.UpdateMergesFirstById` | src/context/AuthContext.tsx:136-141 | Only the first account whose id equals the session id is merged. Its password is kept and every other account is unchanged. |
| `AuthContext.MergeAgrees` | src/context/AuthContext.tsx:129-139 | Two routes give the same record: merging the stored account and then dropping the password, or dropping the password and then merging as the session. |
| `AuthContext.StepsKeepSynced` | src/context/AuthContext.tsx:99-131 | Register, login and update keep memory and storage in agreement. Successful login, successful update and logout establish it, and so does restore after a reload. |
| `AuthContext.LoginAndRegisterKeepSessionBacked` | src/context/AuthContext.tsx:92-101 | After a successful login, the session is some stored account minus its password. `register` keeps that true. |
| `AuthContext.UpdateKeepsSessionBacked` | src/context/AuthContext.tsx:129-141 | When account ids are unique, an update keeps a session that a stored account backs, because the merged record is the merged session. |
| `AuthContext.RestoreDoesNotCheckAccounts` | src/context/AuthContext.tsx:33-38 | Restore installs the stored marker even when no stored account backs it. |
| `AuthContext.UpdateCanDuplicateEmails` | src/context/AuthContext.tsx:136-141 | From an account list with distinct emails, a successful update can leave two accounts with the same email. |
| `AuthContext.RegisterThenLogin` | src/context/AuthContext.tsx:44-109 | After a successful register, logging in with the same email and password succeeds. The session is the new account's id, email and names, with no phone. |
| `RegisterPage.RegisterFields.With` | src/components/Register.tsx:34-39 | Setting a field gives it the new value and leaves every other field as it was. |
| `RegisterPage.ValidateForm` | src/components/Register.tsx:45-69 | Returns the first failing message, checked in this order: an empty field, an invalid email, a password shorter than 6, then a failed confirmation. It returns none iff every check passes. |
| `RegisterPage.AcceptedForm` | src/components/Register.tsx:53-68 | An accepted form's email matches the regular expression. Its password equals the confirmation and has at least 3 characters. |
| `RegisterPage.LongConfirmedPasswordAccepted` | src/components/Register.tsx:59-68 | All fields filled, an email matching the regular expression, and a password of at least 6 UTF-16 code units equal to its confirmation: the form is accepted. |
| `RegisterPage.RegisterForm.constructor` | src/components/Register.tsx:11-19 | The form starts with every field empty, no error and not loading. |
| `RegisterPage.RegisterForm.HandleChange` | src/components/Register.tsx:34-39 | Only the field the input names changes. |
| `RegisterPage.RegisterForm.HandleSubmit` | src/components/Register.tsx:75-110 | A failing validation shows its message and leaves the store unchanged. Otherwise `register` runs with the form's email, password and names (not the confirmation). `false` shows the duplicate-email message, and `true` leads to the login page. |
| `AccountPage.AccountFields.With` | src/components/Account.tsx:27-32 | Setting a field gives it the new value and leaves every other field as it was. |
| `AccountPage.ProfileSave` | src/components/Account.tsx:96 | Saving the form makes the session exactly the form's email, names and phone, with the phone present even when empty, and the session keeps its id, because `formData` has all four fields and no id. |
| `AccountPage.ProfileSaveKeepsIdAndPassword` | src/context/AuthContext.tsx:139 | Merging the form into a stored account keeps that account's id and password. Without the password, the merged account is the form's values under the old id. |
| `AccountPage.ProfileSaveKeepsSessionBacked` | src/components/Account.tsx:96 | If a stored account backs the session, it is still backed after a save through the form. Unlike an arbitrary patch, this needs no unique ids. |
| `AccountPage.ReopenAfterSave` | src/components/Account.tsx:41-44 | Loading the form from the session a save produced gives back exactly the saved form. |
| `AccountPage.OpenWithoutSession` | src/components/Account.tsx:15-20 | With no session, the form opens with four empty fields and fails the required-fields check. |
| `AccountPage.ValidateForm` | src/components/Account.tsx:55-75 | Returns the first failing message, checked in this order: a required field empty, an invalid email, then a nonempty invalid phone. It returns none iff every check passes. |
| `AccountPage.PhoneRule` | src/components/Account.tsx:67-72 | Once names and email pass, an empty phone is accepted. A nonempty phone is accepted iff every character is a digit, whitespace, `-`, `+`, `(` or `)`. |
| `AccountPage.SaveUnedited` | src/components/Account.tsx:89-96 | Saving the form without edits leaves the session unchanged, except that a missing phone becomes `''`. |
| `AccountPage.AccountForm.constructor` | src/components/Account.tsx:14-22 | The page opens with the session's fields, not editing and with no messages. |
| `AccountPage.AccountForm.HandleChange` | src/components/Account.tsx:27-32 | Only the field the input names changes. |
| `AccountPage.AccountForm.HandleEditToggle` | src/components/Account.tsx:37-50 | Editing mode flips on every toggle. Cancelling an edit reloads the session's fields with `''` for a missing one and clears both messages. Entering edit mode changes nothing else. |
| `AccountPage.AccountForm.HandleSubmit` | src/components/Account.tsx:81-107 | A failing validation shows its message and leaves the store unchanged. Otherwise `updateUser(formData)` runs. `true` shows the success message and leaves edit mode; `false` shows the failure message. |
| `AccountPage.AccountForm.HandleLogout` | src/components/Account.tsx:112-115 | Logging out from the page is the store's `logout`. |
| `LoginPage.CheckInput` | src/components/Login.tsx:36-47 | An empty email or password gives the fill-in message first, then an invalid email its message. Any nonempty password with a valid email passes. No length rule applies. |
| `LoginPage.LoginForm.constructor` | src/components/Login.tsx:11-14 | The form starts with empty fields, no error and not loading. |
| `LoginPage.LoginForm.ChangeEmail` | src/components/Login.tsx:98 | The email input sets the email. |
| `LoginPage.LoginForm.ChangePassword` | src/components/Login.tsx:113 | The password input sets the password. |
| `LoginPage.LoginForm.HandleSubmit` | src/components/Login.tsx:30-64 | A failing check shows its message and leaves the store unchanged. Otherwise `login` runs with exactly the entered email and password, and `false` shows the invalid-credentials message. |
| `Scenarios.RegisteredCredentialsPassLoginChecks` | src/components/Login.tsx:37-47 | Credentials the registration form accepts also pass the login form's checks. |
| `Scenarios.RegisteredProfilePassesAccountChecks` | src/components/Account.tsx:55-75 | The session of an account registered through the form opens in the profile page with fields that pass its validation. |
| `Scenarios.SignUpThenSignIn` | src/components/Register.tsx:82-104 | On a fresh page, submitting the registration form succeeds iff it validates and the email is free. Submitting the login form with the same email and password then yields the new account's session. |
| `Scenarios.UpdatePhoneOfOneAccount` | src/context/AuthContext.tsx:124-143 | Register two accounts, log in as the first and set only its phone. The session and the first account get the phone, and the second account is untouched. |

## Left out

- Exceptions. The model leaves out the `try`/`catch` paths: storage that is
  unavailable, malformed JSON, and the catch-all messages at
  `src/components/Register.tsx:106` and `src/components/Login.tsx:60`. With
  them gone, `updateUser` returns false only when there is no session, and
  nothing is ever partly written.
- Storage encoding. Local storage and JSON parse/stringify become structured
  fields. So records carry no fields beyond the declared ones, and a patch
  cannot hold an explicit `undefined`.
- UI and navigation: `useNavigate`, the redirect effects of the login and
  registration pages, `alert`, and the `setTimeout` that clears the success
  message. The model also leaves out rendering and `loading`-driven disabling
  of inputs. The profile page disables its inputs and hides its save button
  outside edit mode; the model lets `AccountForm.HandleChange` and
  `AccountForm.HandleSubmit` run in either mode, a superset of what the page
  allows, and their contracts hold in both. Also left out are `App.tsx` and
  `PrivateRoute.tsx`, which only render when `isAuthenticated` holds.
- React mechanics. State updates are synchronous field assignments. The model
  leaves out context creation and the `useAuth` error for use outside a
  provider. `async`/`await` has no real suspension and is not modelled.
- Clock. `Date.now()` is not modelled. The new account's id is an input and
  ids may repeat.
- Concurrency. Other tabs writing the same storage are out of scope.
- Unpaired surrogates. A Dafny `string` holds Unicode scalar values, so a
  JavaScript string with an unpaired surrogate has no counterpart in the model.
  JavaScript's `.length` counts such a surrogate as 1, and `[^\s@]` matches it.
- `JsText.IsSpace`: follows the Unicode space separators as currently
  assigned. A JavaScript engine built on an older Unicode version may differ
  on rare code points.
