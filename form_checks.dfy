/**
 * The checks the two authentication pages share: the error record type,
 * the email rule (`trim()` for emptiness, then the pattern `\S+@\S+\.\S+`
 * on the untrimmed text) and its two messages.
 */
module FormChecks {
  import opened Wrappers
  import opened Text

  /** `Record<string, string>`: field name to message. */
  type Errors = map<string, string>

  /** Every stored message is non-empty, so `if (errors[name])` is a membership test. */
  predicate Truthy(errors: Errors) {
    forall k :: k in errors ==> errors[k] != []
  }

  const EMAIL_REQUIRED: string := "Email is required"
  const EMAIL_INVALID: string := "Email is invalid"
  const PASSWORD_REQUIRED: string := "Password is required"

  /** The `email` entry: 'Email is required' for a blank email, otherwise 'Email is invalid' when it has no X@Y.Z. */
  ghost predicate EmailReported(email: string, errors: Errors) {
    && ("email" in errors <==> IsBlank(email) || !EmailShaped(email))
    && ("email" in errors ==> errors["email"] == if IsBlank(email) then EMAIL_REQUIRED else EMAIL_INVALID)
  }

  /** The message the `email` check records, if any. */
  method EmailMessage(email: string) returns (message: Option<string>)
    ensures message.Some? <==> IsBlank(email) || !EmailShaped(email)
    ensures message.Some? ==> message.value == if IsBlank(email) then EMAIL_REQUIRED else EMAIL_INVALID
  {
    TrimEmptyIffBlank(email);
    var shaped := MatchesEmail(email);
    if Trim(email) == [] {
      message := Some(EMAIL_REQUIRED);
    } else if !shaped {
      message := Some(EMAIL_INVALID);
    } else {
      message := None;
    }
  }

  /** The `email` check of `validateForm`: records or drops the `email` entry and keeps every other one. */
  method CheckEmail(email: string, errors: Errors) returns (newErrors: Errors)
    ensures EmailReported(email, newErrors)
    ensures forall k :: k in errors && k != "email" ==> k in newErrors && newErrors[k] == errors[k]
    ensures newErrors.Keys <= errors.Keys + {"email"}
  {
    var message := EmailMessage(email);
    if message.Some? {
      newErrors := errors["email" := message.value];
    } else {
      newErrors := errors - {"email"};
    }
  }

  /**
   * How the `signIn` promise settles: with a response whose `error` may be
   * set (an absent response has none), or by throwing.
   */
  datatype Outcome = Resolved(error: Option<string>) | Threw
}
