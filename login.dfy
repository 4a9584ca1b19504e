/** The sign-in form: its validation, the error clearing on edit, and
    `handleSubmit`, which signs in, looks up the user's profiles and routes by
    role. */
module Login {

  import opened Common
  import opened FieldRules
  import Home

  datatype LoginForm = LoginForm(email: string, password: string)

  /** The inputs' `name` attributes. */
  datatype LoginField = Email | Password

  function SetField(form: LoginForm, name: LoginField, value: string): (r: LoginForm)
    ensures name == Email ==> r == LoginForm(value, form.password)
    ensures name == Password ==> r == LoginForm(form.email, value)
  {
    match name
    case Email => form.(email := value)
    case Password => form.(password := value)
  }

  /** The `errors` object: one slot per input and the `submit` slot for a
      failed sign-in; `None` where the key is absent. */
  datatype LoginErrors = LoginErrors(email: Option<string>, password: Option<string>, submit: Option<string>)

  const NoErrors: LoginErrors := LoginErrors(None, None, None)

  /** What `validateForm` stores: the same email rule as sign-up, and only a
      non-empty password, of any length. */
  function ValidationErrors(form: LoginForm): (errors: LoginErrors)
    ensures errors.email == EmailError(form.email)
    ensures errors.password.Some? <==> form.password == ""
    ensures errors.password.Some? ==> errors.password.value == "Password is required"
    ensures errors.submit.None?
    ensures errors == NoErrors <==> !IsBlank(form.email) && EmailFormatOk(form.email) && form.password != ""
  {
    LoginErrors(EmailError(form.email), if form.password == "" then Some("Password is required") else None, None)
  }

  /** Login has no length rule: a one-character password passes. */
  lemma ShortPasswordAccepted(form: LoginForm)
    requires !IsBlank(form.email) && EmailFormatOk(form.email) && |form.password| == 1
    ensures ValidationErrors(form) == NoErrors
  {
  }

  /** What `signInWithPassword` reports. */
  datatype SignInResult = SignInFailed(message: string) | SignedIn(user: Option<AuthUser>)

  /** `data?.length > 0` for a profile lookup whose rows may be missing. */
  predicate HasRows(rows: Option<nat>) {
    rows.Some? && rows.value > 0
  }

  /** Where a signed-in user is sent: a talent profile wins, then a
      hiring-manager profile, else the role choice. Each carries the name. */
  function RouteAfterSignIn(userName: Option<string>, talentRows: Option<nat>, managerRows: Option<nat>): (nav: Navigation)
    ensures nav.replace && nav.userName == userName
    ensures HasRows(talentRows) ==> nav.path == "/explore" && nav.userStatus == Some("talent")
    ensures !HasRows(talentRows) && HasRows(managerRows) ==> nav.path == "/jobs" && nav.userStatus == Some("hiring_manager")
    ensures !HasRows(talentRows) && !HasRows(managerRows) ==> nav.path == "/select-status" && nav.userStatus == None
  {
    if HasRows(talentRows) then Navigation("/explore", true, userName, Some("talent"))
    else if HasRows(managerRows) then Navigation("/jobs", true, userName, Some("hiring_manager"))
    else Navigation("/select-status", true, userName, None)
  }

  /** The state sign-in passes along sends the landing page to the same place:
      a named talent or hiring manager who lands on it is forwarded to the page
      sign-in chose. */
  lemma RouteAgreesWithHome(userName: Option<string>, talentRows: Option<nat>, managerRows: Option<nat>)
    requires Home.Truthy(userName)
    requires HasRows(talentRows) || HasRows(managerRows)
    ensures var nav := RouteAfterSignIn(userName, talentRows, managerRows);
      var landing := Home.HomeDecision(nav.userName, nav.userStatus);
      landing.Forward? && landing.navigation.path == nav.path
  {
  }

  const DefaultSubmitError: string := "Failed to login. Please try again."

  /** The page's state; `navigation` records the last `navigate` call. */
  class LoginPage {
    var formData: LoginForm
    var errors: LoginErrors
    var isLoading: bool
    var navigation: Option<Navigation>

    constructor ()
      ensures formData == LoginForm("", "") && errors == NoErrors && !isLoading && navigation == None
    {
      formData, errors, isLoading, navigation := LoginForm("", ""), NoErrors, false, None;
    }

    /** `handleChange`: the edited field takes the value and a shown message of
        that field is blanked; the other field and messages stay. */
    method HandleChange(name: LoginField, value: string)
      modifies this
      ensures formData == SetField(old(formData), name, value)
      ensures name == Email ==> errors == old(errors).(email := ClearMessage(old(errors).email))
      ensures name == Password ==> errors == old(errors).(password := ClearMessage(old(errors).password))
      ensures isLoading == old(isLoading) && navigation == old(navigation)
    {
      formData := SetField(formData, name, value);
      if name == Email && errors.email.Some? && errors.email.value != "" {
        errors := errors.(email := Some(""));
      } else if name == Password && errors.password.Some? && errors.password.value != "" {
        errors := errors.(password := Some(""));
      }
    }

    /** `handleSubmit`, given what sign-in and the two profile lookups report.
        Nothing is attempted unless validation passes; a failure is shown under
        `submit`; loading is always switched off at the end. */
    method HandleSubmit(signIn: SignInResult, talentRows: Option<nat>, managerRows: Option<nat>)
      modifies this
      ensures formData == old(formData)
      ensures ValidationErrors(formData) != NoErrors
        ==> errors == ValidationErrors(formData) && isLoading == old(isLoading) && navigation == old(navigation)
      ensures ValidationErrors(formData) == NoErrors ==> !isLoading
      ensures ValidationErrors(formData) == NoErrors && signIn.SignInFailed?
        ==> (navigation == old(navigation)
          && errors == NoErrors.(submit := Some(if signIn.message != "" then signIn.message else DefaultSubmitError)))
      ensures ValidationErrors(formData) == NoErrors && signIn.SignedIn? && signIn.user.Some?
        ==> errors == NoErrors && navigation == Some(RouteAfterSignIn(signIn.user.value.fullName, talentRows, managerRows))
      ensures ValidationErrors(formData) == NoErrors && signIn.SignedIn? && signIn.user.None?
        ==> errors == NoErrors && navigation == old(navigation)
    {
      var form := formData;
      var newErrors := NoErrors;
      var emailError := EmailError(form.email);
      if emailError.Some? {
        newErrors := newErrors.(email := emailError);
      }
      if form.password == "" {
        newErrors := newErrors.(password := Some("Password is required"));
      }
      errors := newErrors;
      if newErrors != NoErrors {
        return;
      }
      isLoading := true;
      match signIn {
        case SignInFailed(message) =>
          errors := errors.(submit := Some(if message != "" then message else DefaultSubmitError));
        case SignedIn(user) =>
          if user.Some? {
            navigation := Some(RouteAfterSignIn(user.value.fullName, talentRows, managerRows));
          }
      }
      isLoading := false;
    }
  }
}
