/** The sign-up form: its validation, which fills a fresh error object field
    by field, the looser check that enables the button, and the error clearing
    on edit. */
module Register {

  import opened Common
  import opened FieldRules

  datatype RegisterForm = RegisterForm(fullName: string, email: string, password: string, confirmPassword: string)

  /** The inputs' `name` attributes, which are also the keys of `errors`. */
  datatype RegisterField = FullName | Email | Password | ConfirmPassword

  function Get(form: RegisterForm, field: RegisterField): string {
    match field
    case FullName => form.fullName
    case Email => form.email
    case Password => form.password
    case ConfirmPassword => form.confirmPassword
  }

  /** `{ ...prev, [name]: value }` */
  function SetField(form: RegisterForm, name: RegisterField, value: string): (r: RegisterForm)
    ensures Get(r, name) == value
    ensures forall f :: f != name ==> Get(r, f) == Get(form, f)
  {
    match name
    case FullName => form.(fullName := value)
    case Email => form.(email := value)
    case Password => form.(password := value)
    case ConfirmPassword => form.(confirmPassword := value)
  }

  /** The message each rule sets for its field, if any. */
  function FieldError(form: RegisterForm, field: RegisterField): Option<string> {
    match field
    case FullName => if IsBlank(form.fullName) then Some("Full name is required") else None
    case Email => EmailError(form.email)
    case Password =>
      if form.password == "" then Some("Password is required")
      else if |form.password| < 6 then Some("Password must be at least 6 characters")
      else None
    case ConfirmPassword => if form.password != form.confirmPassword then Some("Passwords do not match") else None
  }

  /** An `errors` object: a message per field, `None` where the key is absent. */
  datatype FieldErrors = FieldErrors(
    fullName: Option<string>,
    email: Option<string>,
    password: Option<string>,
    confirmPassword: Option<string>)

  const NoErrors: FieldErrors := FieldErrors(None, None, None, None)

  function ErrorOf(errors: FieldErrors, field: RegisterField): Option<string> {
    match field
    case FullName => errors.fullName
    case Email => errors.email
    case Password => errors.password
    case ConfirmPassword => errors.confirmPassword
  }

  function SetError(errors: FieldErrors, field: RegisterField, message: Option<string>): (r: FieldErrors)
    ensures ErrorOf(r, field) == message
    ensures forall f :: f != field ==> ErrorOf(r, f) == ErrorOf(errors, f)
  {
    match field
    case FullName => errors.(fullName := message)
    case Email => errors.(email := message)
    case Password => errors.(password := message)
    case ConfirmPassword => errors.(confirmPassword := message)
  }

  /** The error object `validateForm` stores. Each rule speaks only of its own
      field, and the mismatch rule fires whatever the other rules say. */
  function RegisterErrors(form: RegisterForm): (errors: FieldErrors)
    ensures errors.fullName.Some? <==> IsBlank(form.fullName)
    ensures errors.fullName.Some? ==> errors.fullName.value == "Full name is required"
    ensures errors.email.Some? <==> IsBlank(form.email) || !EmailFormatOk(form.email)
    ensures errors.email.Some? ==> errors.email.value == (if IsBlank(form.email) then "Email is required" else "Invalid email format")
    ensures errors.password.Some? <==> |form.password| < 6
    ensures errors.password.Some? ==> errors.password.value == (if form.password == "" then "Password is required" else "Password must be at least 6 characters")
    ensures errors.confirmPassword.Some? <==> form.password != form.confirmPassword
  {
    FieldErrors(
      FieldError(form, FullName),
      FieldError(form, Email),
      FieldError(form, Password),
      FieldError(form, ConfirmPassword))
  }

  /** `validateForm` passes exactly when all four rules hold. */
  lemma ValidIffAllRulesHold(form: RegisterForm)
    ensures RegisterErrors(form) == NoErrors <==>
      && !IsBlank(form.fullName)
      && !IsBlank(form.email) && RegexFindsEmail(form.email)
      && |form.password| >= 6
      && form.password == form.confirmPassword
  {
    EmailFormatOkIffRegex(form.email);
  }

  /** `isFormValid`, which enables the Create Account button. */
  predicate IsFormValid(form: RegisterForm) {
    && form.fullName != ""
    && form.email != ""
    && form.password != ""
    && form.confirmPassword != ""
    && form.password == form.confirmPassword
    && |form.password| >= 6
  }

  /** A form that passes validation has the button enabled. */
  lemma ValidatedFormIsEnabled(form: RegisterForm)
    ensures RegisterErrors(form) == NoErrors ==> IsFormValid(form)
  {
    ValidIffAllRulesHold(form);
  }

  /** The converse fails: a blank name still enables the button. */
  lemma BlankNameIsEnabled()
    ensures var form := RegisterForm(" ", "someone@example.com", "secret", "secret");
      IsFormValid(form) && RegisterErrors(form).fullName == Some("Full name is required")
  {
  }

  /** Nor does the button look at the shape of the email. */
  lemma MalformedEmailIsEnabled()
    ensures var form := RegisterForm("Ada", "someone", "secret", "secret");
      IsFormValid(form) && RegisterErrors(form).email == Some("Invalid email format")
  {
    var email := "someone";
    assert !IsBlank(email) by { assert !IsSpace(email[0]); }
    NoAtNoEmail(email);
    EmailFormatOkIffRegex(email);
  }

  /** The page's state. */
  class RegisterPage {
    var formData: RegisterForm
    var errors: FieldErrors

    constructor ()
      ensures formData == RegisterForm("", "", "", "") && errors == NoErrors
    {
      formData, errors := RegisterForm("", "", "", ""), NoErrors;
    }

    /** `handleChange`: the edited field takes the value and a shown message of
        that field is blanked; the other fields and messages stay. */
    method HandleChange(name: RegisterField, value: string)
      modifies this
      ensures formData == SetField(old(formData), name, value)
      ensures errors == SetError(old(errors), name, ClearMessage(ErrorOf(old(errors), name)))
    {
      formData := SetField(formData, name, value);
      var message := ErrorOf(errors, name);
      if message.Some? && message.value != "" {
        errors := SetError(errors, name, Some(""));
      }
    }

    /** `validateForm`, which `handleSubmit` runs; submission itself only logs. */
    method ValidateForm() returns (ok: bool)
      modifies this
      ensures formData == old(formData)
      ensures errors == RegisterErrors(formData)
      ensures ok <==> errors == NoErrors
    {
      var form := formData;
      var newErrors := NoErrors;
      if !Filled(form.fullName) {
        newErrors := newErrors.(fullName := Some("Full name is required"));
      }
      var emailError := EmailError(form.email);
      if emailError.Some? {
        newErrors := newErrors.(email := emailError);
      }
      if form.password == "" {
        newErrors := newErrors.(password := Some("Password is required"));
      } else if |form.password| < 6 {
        newErrors := newErrors.(password := Some("Password must be at least 6 characters"));
      }
      if form.password != form.confirmPassword {
        newErrors := newErrors.(confirmPassword := Some("Passwords do not match"));
      }
      assert newErrors == RegisterErrors(formData);
      errors := newErrors;
      ok := newErrors == NoErrors;
    }
  }
}
