/**
 * The register form's submit handler (frontend/src/pages/RegisterPage.jsx):
 * the client-side password length check and the choice of the error shown
 * when registration fails.
 */
module RegisterPage {
  import opened Wrappers
  import opened JsString

  const MinPasswordLength := 6
  const TooShort := "Password must be at least 6 characters long"
  const Fallback := "Registration failed"
  const Separator := " | "

  datatype RegisterForm = RegisterForm(username: string, email: string, password: string)

  datatype SubmitStep = ShowError(message: string) | CallRegister(username: string, email: string, password: string)

  /** The first step of `handleSubmit`: a short password sets the error and `register` is not called. */
  function OnSubmit(f: RegisterForm): (r: SubmitStep)
    ensures r.ShowError? <==> |f.password| < MinPasswordLength
    ensures r.ShowError? ==> r.message == TooShort
    ensures r.CallRegister? ==> r == CallRegister(f.username, f.email, f.password)
  {
    if |f.password| < MinPasswordLength then ShowError(TooShort)
    else CallRegister(f.username, f.email, f.password)
  }

  /** `error.response?.data` of a failed request: an `errors` array and a `message`, each maybe absent. */
  datatype ErrorData = ErrorData(errors: Option<seq<string>>, message: Option<string>)

  /** The error `handleSubmit` shows when `register` throws. */
  function FailureMessage(resp: Option<ErrorData>): (m: string)
    ensures resp.Some? && resp.value.errors.Some? ==> m == Join(resp.value.errors.value, Separator)
    ensures resp.Some? && resp.value.errors.None? && Truthy(resp.value.message) ==> m == resp.value.message.value
    ensures (resp.None? || (resp.value.errors.None? && !Truthy(resp.value.message))) ==> m == Fallback
  {
    if resp.Some? && resp.value.errors.Some? then Join(resp.value.errors.value, Separator)
    else if resp.Some? && Truthy(resp.value.message) then resp.value.message.value
    else Fallback
  }

  /** Structured errors win over the message, whatever the message says. */
  lemma ErrorsBeforeMessage(errors: seq<string>, m1: Option<string>, m2: Option<string>)
    ensures FailureMessage(Some(ErrorData(Some(errors), m1))) == FailureMessage(Some(ErrorData(Some(errors), m2)))
  {
  }

  /** Errors are shown in the order the server lists them: any split of the list joins back with one separator. */
  lemma ErrorsShownInOrder(a: seq<string>, b: seq<string>, m: Option<string>)
    requires a != [] && b != []
    ensures FailureMessage(Some(ErrorData(Some(a + b), m)))
         == FailureMessage(Some(ErrorData(Some(a), m))) + Separator + FailureMessage(Some(ErrorData(Some(b), m)))
  {
    JoinAppend(a, b, Separator);
  }

  /** Two errors are shown separated by `" | "`. */
  lemma TwoErrorsJoined(a: string, b: string)
    ensures FailureMessage(Some(ErrorData(Some([a, b]), None))) == a + " | " + b
  {
    assert [a, b][1..] == [b];
  }
}
