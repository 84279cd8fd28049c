/** The sign-up page: the six field rules, the request it sends and the
    submit flow that ends on the sign-in page. */
module RegisterPage {
  import opened Common
  import opened FormRules
  import opened Submission
  import Register
  import LoginPage

  const LoginPath: string := "/login"

  datatype Form = Form(
    name: string,
    phone: string,
    email: string,
    password: string,
    confirmPassword: string,
    role: string)

  /** The message under each field, if any. */
  datatype Errors = Errors(
    name: Option<string>,
    phone: Option<string>,
    email: Option<string>,
    password: Option<string>,
    confirmPassword: Option<string>,
    role: Option<string>)

  function Check(form: Form): Errors {
    Errors(NameError(form.name), PhoneError(form.phone), EmailError(form.email),
           NewPasswordError(form.password), ConfirmError(form.confirmPassword, form.password),
           RoleError(form.role))
  }

  predicate Accepted(form: Form) {
    Check(form) == Errors(None, None, None, None, None, None)
  }

  /** The form is sent exactly when every rule holds: a name of at least
      three characters, a phone number and an email of the right shape, a
      strong password, the same password typed twice and a role. */
  lemma AcceptedExactly(form: Form)
    ensures Accepted(form) <==>
              && |form.name| >= MinNameLength && PhoneShape(form.phone) && EmailShape(form.email)
              && StrongPassword(form.password) && form.confirmPassword == form.password
              && form.role != ""
  {
  }

  /** `registerUser(data)`: the fields the server reads. */
  function RequestOf(form: Form): Register.Request {
    Register.Request(Some(form.name), Some(form.phone), Some(form.email), Some(form.password), Some(form.role))
  }

  /** A form the page accepts never meets the server's missing-field
      refusal. */
  lemma AcceptedFormComplete(form: Form)
    requires Accepted(form)
    ensures Register.Complete(RequestOf(form))
  {
    AcceptedFieldsPresent(form.phone, form.email);
  }

  /** `handleSubmit(onSubmit)`: a form with a failing rule is not submitted;
      otherwise the guard, and the request is sent. */
  method OnSubmit(page: SubmitState, form: Form) returns (sent: Option<Register.Request>)
    modifies page
    ensures !Accepted(form) || old(page.submitting) ==> sent.None? && unchanged(page)
    ensures Accepted(form) && !old(page.submitting) ==>
              sent == Some(RequestOf(form)) && page.submitting && page.error == ""
  {
    if !Accepted(form) {
      return None;
    }
    var started := page.Begin();
    if !started {
      return None;
    }
    return Some(RequestOf(form));
  }

  /** Where the success view leads after its delay: the sign-in page, told
      that the member has just signed up. */
  const AfterSignUp: LoginPage.Entry := LoginPage.Entry(None, Some(true))

  /** The answer to the request: success shows the success view and later
      moves to the sign-in page; a failure shows the thrown message. */
  method Settle(page: SubmitState, outcome: Result<()>) returns (navigate: Option<(string, LoginPage.Entry)>)
    modifies page
    ensures !page.submitting
    ensures outcome.Ok? ==> page.succeeded && navigate == Some((LoginPath, AfterSignUp))
    ensures outcome.Err? ==> navigate.None? && page.error == outcome.error && page.succeeded == old(page.succeeded)
  {
    if outcome.Ok? {
      page.Succeed();
      return Some((LoginPath, AfterSignUp));
    }
    page.Fail(outcome.error);
    return None;
  }

  /** The sign-in page reached after signing up shows the notice and, once
      signed in, goes to the dashboard. */
  lemma SignUpLeadsToNotice()
    ensures LoginPage.Notice(AfterSignUp) == Some(LoginPage.RegisteredNotice)
    ensures LoginPage.Target(AfterSignUp) == LoginPage.DefaultTarget
  {
  }
}
