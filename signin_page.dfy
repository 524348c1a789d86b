/**
 * The sign-in page: two text fields, an error record keyed by field name
 * (plus `general` for a failed request), and the submit handler that calls
 * the authentication client only when the form validates.
 */
module SignInPage {
  import opened Wrappers
  import opened Text
  import opened FormChecks

  datatype Field = Email | Password

  /** The input's `name` attribute, which is also its key in the error record. */
  function Key(f: Field): string {
    match f
    case Email => "email"
    case Password => "password"
  }

  datatype FormData = FormData(email: string, password: string)

  /** `{ ...prev, [name]: value }`. */
  function WithField(form: FormData, f: Field, value: string): FormData {
    match f
    case Email => form.(email := value)
    case Password => form.(password := value)
  }

  /** The `password` entry: present exactly for an empty password (no trimming, no length rule). */
  predicate PasswordReported(form: FormData, errors: Errors) {
    && ("password" in errors <==> form.password == [])
    && ("password" in errors ==> errors["password"] == PASSWORD_REQUIRED)
  }

  /** The error record validation leaves for a form: the two entries above and nothing else. */
  ghost predicate Reports(form: FormData, errors: Errors) {
    && errors.Keys <= {"email", "password"}
    && EmailReported(form.email, errors) && PasswordReported(form, errors)
  }

  /** A form the page will send. */
  ghost predicate Acceptable(form: FormData) {
    !IsBlank(form.email) && EmailShaped(form.email) && form.password != []
  }

  /** `Object.keys(newErrors).length === 0` exactly for acceptable forms. */
  lemma NoErrorsIffAcceptable(form: FormData, errors: Errors)
    requires Reports(form, errors)
    ensures errors == map[] <==> Acceptable(form)
  {
    if Acceptable(form) {
      assert errors.Keys == {};
    }
  }

  /** The `password` check: required when empty. */
  method CheckPassword(form: FormData, errors: Errors) returns (newErrors: Errors)
    ensures PasswordReported(form, newErrors)
    ensures forall k :: k in errors && k != "password" ==> k in newErrors && newErrors[k] == errors[k]
    ensures newErrors.Keys <= errors.Keys + {"password"}
  {
    newErrors := errors - {"password"};
    if form.password == [] {
      newErrors := errors["password" := PASSWORD_REQUIRED];
    }
  }

  /** The local `newErrors` of `validateForm`, filled check by check from an empty record. */
  method CollectErrors(form: FormData) returns (newErrors: Errors)
    ensures Reports(form, newErrors)
    ensures newErrors == map[] <==> Acceptable(form)
    ensures Truthy(newErrors)
  {
    var e0 := CheckEmail(form.email, map[]);
    newErrors := CheckPassword(form, e0);
    NoErrorsIffAcceptable(form, newErrors);
  }

  /** What the page passes to `signIn('credentials', {...})`: no name, unlike sign-up. */
  datatype SignInRequest = SignInRequest(provider: string, email: string, password: string, callbackUrl: string)

  const SIGN_IN_FAILED: string := "An error occurred during sign in"

  class SignInPage {
    var form: FormData
    var errors: Errors

    ghost predicate Valid()
      reads this
    {
      Truthy(errors)
    }

    constructor()
      ensures Valid() && form == FormData("", "") && errors == map[]
    {
      form := FormData("", "");
      errors := map[];
    }

    /** `handleChange`: the edited field takes the new value and only its error is cleared. */
    method HandleChange(field: Field, value: string)
      requires Valid()
      modifies this
      ensures Valid()
      ensures form == WithField(old(form), field, value)
      ensures errors == old(errors) - {Key(field)}
    {
      form := WithField(form, field, value);
      var name := Key(field);
      if name in errors && errors[name] != [] {
        errors := errors - {name};
      }
    }

    /** `validateForm`: replaces the error record and answers whether it is empty. */
    method ValidateForm() returns (ok: bool)
      requires Valid()
      modifies this
      ensures Valid() && form == old(form)
      ensures Reports(form, errors)
      ensures ok <==> Acceptable(form)
      ensures ok <==> errors == map[]
    {
      var newErrors := CollectErrors(form);
      errors := newErrors;
      ok := |newErrors| == 0;
    }

    /**
     * `handleSubmit`: an invalid form is never sent. A sent form either
     * redirects to the dashboard or leaves a single `general` error.
     */
    method HandleSubmit(outcome: Outcome) returns (sent: Option<SignInRequest>, redirectTo: Option<string>)
      requires Valid()
      modifies this
      ensures Valid() && form == old(form)
      ensures sent.Some? <==> Acceptable(form)
      ensures !Acceptable(form) ==> Reports(form, errors) && redirectTo.None?
      ensures sent.Some? ==> sent.value == SignInRequest("credentials", form.email, form.password, "/dashboard")
      ensures sent.Some? && outcome.Resolved? && outcome.error.Some? && outcome.error.value != [] ==>
                errors == map["general" := outcome.error.value] && redirectTo.None?
      ensures sent.Some? && outcome.Threw? ==> errors == map["general" := SIGN_IN_FAILED] && redirectTo.None?
      ensures sent.Some? && outcome.Resolved? && (outcome.error.None? || outcome.error.value == []) ==>
                errors == map[] && redirectTo == Some("/dashboard")
    {
      redirectTo := None;
      var ok := ValidateForm();
      if !ok {
        return None, None;
      }
      sent := Some(SignInRequest("credentials", form.email, form.password, "/dashboard"));
      match outcome
      case Threw =>
        errors := map["general" := SIGN_IN_FAILED];
      case Resolved(error) =>
        if error.Some? && error.value != [] {
          errors := map["general" := error.value];
        } else {
          redirectTo := Some("/dashboard");
        }
    }
  }
}
