/** The reset-password page: the token from the link, the new password
    rules and the submit flow. */
module ResetPasswordPage {
  import opened Common
  import opened FormRules
  import opened Submission
  import ResetPassword

  const TokenMissingMsg: string := "Token reset password tidak ditemukan"
  const LoginPath: string := "/login"

  datatype Form = Form(password: string, confirmPassword: string)

  datatype Errors = Errors(password: Option<string>, confirmPassword: Option<string>)

  /** The new password has the sign-up strength rule, and has to be typed
      twice. */
  function Check(form: Form): (e: Errors)
    ensures e.password.None? <==> StrongPassword(form.password)
    ensures e.confirmPassword.None? <==> form.confirmPassword != "" && form.confirmPassword == form.password
  {
    Errors(NewPasswordError(form.password), ConfirmError(form.confirmPassword, form.password))
  }

  predicate Accepted(form: Form) {
    Check(form) == Errors(None, None)
  }

  /** Without a token the page shows the broken-link notice in place of
      the form. */
  predicate ShowsForm(token: Option<string>) {
    Truthy(token)
  }

  /** `handleSubmit(onSubmit)`: a form with a failing rule is not submitted;
      then the guard; then a missing token is reported without starting a
      submit; otherwise the token and the new password are sent. */
  method OnSubmit(page: SubmitState, form: Form, token: Option<string>) returns (sent: Option<ResetPassword.Request>)
    modifies page
    ensures !Accepted(form) || old(page.submitting) ==> sent.None? && unchanged(page)
    ensures Accepted(form) && !old(page.submitting) && !Truthy(token) ==>
              && sent.None? && page.error == TokenMissingMsg
              && !page.submitting && page.succeeded == old(page.succeeded)
    ensures Accepted(form) && !old(page.submitting) && Truthy(token) ==>
              sent == Some(ResetPassword.Request(token, Some(form.password))) && page.submitting && page.error == ""
  {
    if !Accepted(form) {
      return None;
    }
    if page.submitting {
      return None;
    }
    if !Truthy(token) {
      page.Report(TokenMissingMsg);
      return None;
    }
    var started := page.Begin();
    assert started;
    return Some(ResetPassword.Request(token, Some(form.password)));
  }

  /** A sent request carries a token and a password, so it never meets the
      server's missing-field refusal. */
  lemma SentRequestComplete(form: Form, token: Option<string>)
    requires Accepted(form) && Truthy(token)
    ensures ResetPassword.Complete(ResetPassword.Request(token, Some(form.password)))
  {
  }

  /** Success is shown only once the call resolves, and later leads to the
      sign-in page; a failure shows the thrown message. */
  method Settle(page: SubmitState, outcome: Result<()>) returns (navigate: Option<string>)
    modifies page
    ensures !page.submitting
    ensures outcome.Ok? ==> page.succeeded && navigate == Some(LoginPath)
    ensures outcome.Err? ==> navigate.None? && page.error == outcome.error && page.succeeded == old(page.succeeded)
  {
    if outcome.Ok? {
      page.Succeed();
      return Some(LoginPath);
    }
    page.Fail(outcome.error);
    return None;
  }
}
