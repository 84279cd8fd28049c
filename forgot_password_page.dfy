/** The forgot-password page: one email field, and a success view that does
    not depend on whether the address is known. */
module ForgotPasswordPage {
  import opened Common
  import opened FormRules
  import opened Submission
  import ForgotPassword

  /** The message under the email field, if any. */
  function Check(email: string): (e: Option<string>)
    ensures e.None? <==> EmailShape(email)
    ensures email == "" ==> e == Some(EmailRequiredMsg)
  {
    EmailError(email)
  }

  /** `handleSubmit(onSubmit)`: an address of the wrong shape is not
      submitted; otherwise the guard, and the address is sent. */
  method OnSubmit(page: SubmitState, email: string) returns (sent: Option<ForgotPassword.Request>)
    modifies page
    ensures Check(email).Some? || old(page.submitting) ==> sent.None? && unchanged(page)
    ensures Check(email).None? && !old(page.submitting) ==>
              sent == Some(ForgotPassword.Request(Some(email))) && page.submitting && page.error == ""
  {
    if Check(email).Some? {
      return None;
    }
    var started := page.Begin();
    if !started {
      return None;
    }
    return Some(ForgotPassword.Request(Some(email)));
  }

  /** Success only once the call resolves; a failure shows the thrown
      message and no success. */
  method Settle(page: SubmitState, outcome: Result<()>)
    modifies page
    ensures !page.submitting
    ensures outcome.Ok? ==> page.succeeded && page.error == old(page.error)
    ensures outcome.Err? ==> page.error == outcome.error && page.succeeded == old(page.succeeded)
  {
    if outcome.Ok? {
      page.Succeed();
    } else {
      page.Fail(outcome.error);
    }
  }
}
