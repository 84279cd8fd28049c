/** The sign-in page: where it sends the member afterwards, the notice
    shown after signing up, the two field rules and the submit flow. */
module LoginPage {
  import opened Common
  import opened FormRules
  import opened Submission

  const DefaultTarget: string := "/dashboard"
  const RegisteredNotice: string := "Pendaftaran berhasil! Silahkan cek email Anda untuk verifikasi akun sebelum login."

  /** The navigation state the page is opened with: the path of the page
      that sent the member here, and whether they come from signing up. */
  datatype Entry = Entry(fromPath: Option<string>, fromRegister: Option<bool>)

  datatype Form = Form(email: string, password: string)

  datatype Errors = Errors(email: Option<string>, password: Option<string>)

  /** `location.state?.from?.pathname || '/dashboard'`. */
  function Target(entry: Entry): (t: string)
    ensures Truthy(entry.fromPath) ==> t == entry.fromPath.value
    ensures !Truthy(entry.fromPath) ==> t == DefaultTarget
    ensures t != ""
  {
    if Truthy(entry.fromPath) then entry.fromPath.value else DefaultTarget
  }

  /** The notice, shown exactly when the state says the member has just
      signed up. */
  function Notice(entry: Entry): (n: Option<string>)
    ensures n.Some? <==> entry.fromRegister == Some(true)
    ensures n.Some? ==> n.value == RegisteredNotice
  {
    if entry.fromRegister == Some(true) then Some(RegisteredNotice) else None
  }

  /** A member already signed in is sent on at once. */
  function EntryRedirect(entry: Entry, authenticated: bool): (r: Option<string>)
    ensures r.Some? <==> authenticated
    ensures r.Some? ==> r.value == Target(entry)
  {
    if authenticated then Some(Target(entry)) else None
  }

  /** The email must have the address shape; the password only has to be
      there, with no strength rule. */
  function Check(form: Form): (e: Errors)
    ensures e.email.None? <==> EmailShape(form.email)
    ensures e.password.None? <==> form.password != ""
  {
    Errors(EmailError(form.email), PasswordPresentError(form.password))
  }

  predicate Accepted(form: Form) {
    Check(form) == Errors(None, None)
  }

  /** A weak password is no obstacle to signing in. */
  lemma WeakPasswordAccepted(form: Form)
    requires EmailShape(form.email) && form.password == "a"
    ensures Accepted(form) && !StrongPassword(form.password)
  {
  }

  /** `handleSubmit(onSubmit)`: a form with a failing rule is not submitted;
      otherwise the guard, and the email and password are sent. */
  method OnSubmit(page: SubmitState, form: Form) returns (sent: Option<Form>)
    modifies page
    ensures !Accepted(form) || old(page.submitting) ==> sent.None? && unchanged(page)
    ensures Accepted(form) && !old(page.submitting) ==>
              sent == Some(form) && page.submitting && page.error == ""
  {
    if !Accepted(form) {
      return None;
    }
    var started := page.Begin();
    if !started {
      return None;
    }
    return Some(form);
  }

  /** The answer to the sign-in: success sends the member to the target
      page; a failure shows the thrown message and the member stays. */
  method Settle(page: SubmitState, entry: Entry, outcome: Result<()>) returns (navigate: Option<string>)
    modifies page
    ensures !page.submitting
    ensures outcome.Ok? ==> navigate == Some(Target(entry)) && page.error == old(page.error)
    ensures outcome.Err? ==> navigate.None? && page.error == outcome.error
    ensures page.succeeded == old(page.succeeded)
  {
    if outcome.Ok? {
      page.Release();
      return Some(Target(entry));
    }
    page.Fail(outcome.error);
    return None;
  }
}
