/**
 * The sign-up page: four text fields, an error record keyed by field name
 * (plus `general` for a failed request), and the submit handler that calls
 * the authentication client only when the form validates. React state
 * updates are field assignments; the `signIn` call is recorded as what
 * was sent, and its outcome is a parameter.
 */
module SignUpPage {
  import opened Wrappers
  import opened Text
  import opened FormChecks

  datatype Field = Name | Email | Password | ConfirmPassword

  /** The input's `name` attribute, which is also its key in the error record. */
  function Key(f: Field): string {
    match f
    case Name => "name"
    case Email => "email"
    case Password => "password"
    case ConfirmPassword => "confirmPassword"
  }

  datatype FormData = FormData(name: string, email: string, password: string, confirmPassword: string)

  /** `{ ...prev, [name]: value }`. */
  function WithField(form: FormData, f: Field, value: string): FormData {
    match f
    case Name => form.(name := value)
    case Email => form.(email := value)
    case Password => form.(password := value)
    case ConfirmPassword => form.(confirmPassword := value)
  }

  const NAME_REQUIRED: string := "Name is required"
  const PASSWORD_TOO_SHORT: string := "Password must be at least 6 characters"
  const PASSWORDS_DIFFER: string := "Passwords do not match"
  const MIN_PASSWORD_LENGTH: int := 6

  /** The `name` entry: present exactly for a blank name. */
  predicate NameReported(form: FormData, errors: Errors) {
    && ("name" in errors <==> IsBlank(form.name))
    && ("name" in errors ==> errors["name"] == NAME_REQUIRED)
  }

  /** The `password` entry: the password is empty or shorter than six characters (no trimming). */
  predicate PasswordReported(form: FormData, errors: Errors) {
    && ("password" in errors <==> |form.password| < MIN_PASSWORD_LENGTH)
    && ("password" in errors ==> errors["password"] == if form.password == [] then PASSWORD_REQUIRED else PASSWORD_TOO_SHORT)
  }

  /** The `confirmPassword` entry: the two passwords differ, whatever else is wrong. */
  predicate ConfirmReported(form: FormData, errors: Errors) {
    && ("confirmPassword" in errors <==> form.password != form.confirmPassword)
    && ("confirmPassword" in errors ==> errors["confirmPassword"] == PASSWORDS_DIFFER)
  }

  /** The error record validation leaves for a form: the four entries above and nothing else. */
  ghost predicate Reports(form: FormData, errors: Errors) {
    && errors.Keys <= {"name", "email", "password", "confirmPassword"}
    && NameReported(form, errors) && EmailReported(form.email, errors)
    && PasswordReported(form, errors) && ConfirmReported(form, errors)
  }

  /** A form the page will send. */
  ghost predicate Acceptable(form: FormData) {
    && !IsBlank(form.name)
    && !IsBlank(form.email) && EmailShaped(form.email)
    && |form.password| >= MIN_PASSWORD_LENGTH
    && form.password == form.confirmPassword
  }

  /** `Object.keys(newErrors).length === 0` exactly for acceptable forms. */
  lemma NoErrorsIffAcceptable(form: FormData, errors: Errors)
    requires Reports(form, errors)
    ensures errors == map[] <==> Acceptable(form)
  {
    if Acceptable(form) {
      assert errors.Keys == {};
    }
  }

  /** Every message the record can hold is a non-empty constant. */
  lemma ReportedMessagesNonEmpty(form: FormData, errors: Errors)
    requires Reports(form, errors)
    ensures Truthy(errors)
  {
    forall k | k in errors
      ensures errors[k] != []
    {
      assert k == "name" || k == "email" || k == "password" || k == "confirmPassword";
    }
  }

  /** The `name` check of `validateForm`: records or leaves the `name` entry, nothing else. */
  method CheckName(form: FormData, errors: Errors) returns (newErrors: Errors)
    ensures NameReported(form, newErrors)
    ensures forall k :: k in errors && k != "name" ==> k in newErrors && newErrors[k] == errors[k]
    ensures newErrors.Keys <= errors.Keys + {"name"}
  {
    newErrors := errors - {"name"};
    TrimEmptyIffBlank(form.name);
    if Trim(form.name) == [] {
      newErrors := errors["name" := NAME_REQUIRED];
    }
  }

  /** The `password` check: required when empty, too short under six characters. */
  method CheckPassword(form: FormData, errors: Errors) returns (newErrors: Errors)
    ensures PasswordReported(form, newErrors)
    ensures forall k :: k in errors && k != "password" ==> k in newErrors && newErrors[k] == errors[k]
    ensures newErrors.Keys <= errors.Keys + {"password"}
  {
    newErrors := errors - {"password"};
    if form.password == [] {
      newErrors := errors["password" := PASSWORD_REQUIRED];
    } else if |form.password| < MIN_PASSWORD_LENGTH {
      newErrors := errors["password" := PASSWORD_TOO_SHORT];
    }
  }

  /** The confirmation check: the two passwords must be equal. */
  method CheckConfirm(form: FormData, errors: Errors) returns (newErrors: Errors)
    ensures ConfirmReported(form, newErrors)
    ensures forall k :: k in errors && k != "confirmPassword" ==> k in newErrors && newErrors[k] == errors[k]
    ensures newErrors.Keys <= errors.Keys + {"confirmPassword"}
  {
    newErrors := errors - {"confirmPassword"};
    if form.password != form.confirmPassword {
      newErrors := errors["confirmPassword" := PASSWORDS_DIFFER];
    }
  }

  /** The local `newErrors` of `validateForm`, filled check by check from an empty record. */
  method CollectErrors(form: FormData) returns (newErrors: Errors)
    ensures Reports(form, newErrors)
    ensures newErrors == map[] <==> Acceptable(form)
    ensures Truthy(newErrors)
  {
    var e0 := CheckName(form, map[]);
    var e1 := CheckEmail(form.email, e0);
    assert NameReported(form, e1) && e1.Keys <= {"name", "email"};
    var e2 := CheckPassword(form, e1);
    assert NameReported(form, e2) && EmailReported(form.email, e2);
    assert e2.Keys <= {"name", "email", "password"};
    newErrors := CheckConfirm(form, e2);
    assert NameReported(form, newErrors) && EmailReported(form.email, newErrors);
    assert PasswordReported(form, newErrors);
    ReportedMessagesNonEmpty(form, newErrors);
    NoErrorsIffAcceptable(form, newErrors);
  }

  /** What the page passes to `signIn('credentials', {...})`. */
  datatype SignInRequest = SignInRequest(provider: string, email: string, password: string, name: string, callbackUrl: string)

  const SIGN_UP_FAILED: string := "An error occurred during sign up"

  class SignUpPage {
    var form: FormData
    var errors: Errors

    /** Every stored message is non-empty, so `if (errors[name])` is a membership test. */
    ghost predicate Valid()
      reads this
    {
      Truthy(errors)
    }

    constructor()
      ensures Valid() && form == FormData("", "", "", "") && errors == map[]
    {
      form := FormData("", "", "", "");
      errors := map[];
    }

    /** `handleChange`: the edited field takes the new value and only its error is cleared. */
    method HandleChange(field: Field, value: string)
      requires Valid()
      modifies this
      ensures Valid()
      ensures form == WithField(old(form), field, value)
      ensures errors == old(errors) - {Key(field)}
    {
      form := WithField(form, field, value);
      var name := Key(field);
      if name in errors && errors[name] != [] {
        errors := errors - {name};
      }
    }

    /** `validateForm`: replaces the error record and answers whether it is empty. */
    method ValidateForm() returns (ok: bool)
      requires Valid()
      modifies this
      ensures Valid() && form == old(form)
      ensures Reports(form, errors)
      ensures ok <==> Acceptable(form)
      ensures ok <==> errors == map[]
    {
      var newErrors := CollectErrors(form);
      errors := newErrors;
      ok := |newErrors| == 0;
    }

    /**
     * `handleSubmit`: an invalid form is never sent. A sent form either
     * redirects to the dashboard or leaves a single `general` error.
     */
    method HandleSubmit(outcome: Outcome) returns (sent: Option<SignInRequest>, redirectTo: Option<string>)
      requires Valid()
      modifies this
      ensures Valid() && form == old(form)
      ensures sent.Some? <==> Acceptable(form)
      ensures !Acceptable(form) ==> Reports(form, errors) && redirectTo.None?
      ensures sent.Some? ==> sent.value == SignInRequest("credentials", form.email, form.password, form.name, "/dashboard")
      ensures sent.Some? && outcome.Resolved? && outcome.error.Some? && outcome.error.value != [] ==>
                errors == map["general" := outcome.error.value] && redirectTo.None?
      ensures sent.Some? && outcome.Threw? ==> errors == map["general" := SIGN_UP_FAILED] && redirectTo.None?
      ensures sent.Some? && outcome.Resolved? && (outcome.error.None? || outcome.error.value == []) ==>
                errors == map[] && redirectTo == Some("/dashboard")
    {
      redirectTo := None;
      var ok := ValidateForm();
      if !ok {
        return None, None;
      }
      sent := Some(SignInRequest("credentials", form.email, form.password, form.name, "/dashboard"));
      match outcome
      case Threw =>
        errors := map["general" := SIGN_UP_FAILED];
      case Resolved(error) =>
        if error.Some? && error.value != [] {
          errors := map["general" := error.value];
        } else {
          redirectTo := Some("/dashboard");
        }
    }
  }
}
