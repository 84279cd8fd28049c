/** The profile page: the form filled in from the signed-in user, the three
    field rules, the request it sends (never the email) and the message
    shown afterwards. */
module ProfilePage {
  import opened Common
  import opened FormRules
  import opened Submission
  import opened AuthProvider
  import Schema
  import Profile

  const UpdatedMsg: string := "Profil berhasil diperbarui!"
  const UpdateFailedMsg: string := "Gagal memperbarui profil."

  datatype Form = Form(name: string, phone: string, role: string, profilePicture: string)

  datatype Errors = Errors(name: Option<string>, phone: Option<string>, role: Option<string>)

  /** What an input shows for a field of the user record: its text, or
      nothing when the field is missing or not text. */
  function FieldText(user: UserRecord, key: string): (t: string)
    ensures key in user && user[key].JStr? ==> t == user[key].s
    ensures key !in user || !user[key].JStr? ==> t == ""
  {
    if key in user && user[key].JStr? then user[key].s else ""
  }

  /** The form as the page fills it in from the user; a missing picture
      becomes the empty text. */
  function Prefill(user: UserRecord): (f: Form)
    ensures f.name == FieldText(user, "name") && f.phone == FieldText(user, "phone")
    ensures f.role == FieldText(user, "role") && f.profilePicture == FieldText(user, "profilePicture")
  {
    Form(FieldText(user, "name"), FieldText(user, "phone"), FieldText(user, "role"),
         FieldText(user, "profilePicture"))
  }

  function Check(form: Form): (e: Errors)
    ensures e.name.None? <==> |form.name| >= MinNameLength
    ensures e.phone.None? <==> PhoneShape(form.phone)
    ensures e.role.None? <==> form.role != ""
  {
    Errors(NameError(form.name), PhoneError(form.phone), RoleError(form.role))
  }

  predicate Accepted(form: Form) {
    Check(form) == Errors(None, None, None)
  }

  /** The fields registered with the form; the email input is shown
      disabled and is not one of them. */
  function RequestOf(form: Form): Profile.Request {
    Profile.Request(Some(form.name), Some(form.phone), Some(form.role), Some(form.profilePicture))
  }

  /** The user record a sign-in answer holds has no phone, so right after
      signing in the phone field starts empty and the form cannot be sent
      until the number is typed again. */
  lemma SignInUserHasNoPhone(user: UserRecord)
    requires "phone" !in user
    ensures Prefill(user).phone == ""
    ensures Check(Prefill(user)).phone == Some(PhoneRequiredMsg)
  {
  }

  /** Once a profile update has been merged into the session, the phone the
      server answered with is filled in. */
  lemma UpdatedUserHasPhone(user: Option<UserRecord>, answer: UserRecord, phone: string)
    requires "phone" in answer && answer["phone"] == JStr(phone)
    ensures Prefill(Merge(user, answer)).phone == phone
  {
  }

  /** An accepted form never meets the server's missing-field refusal, and
      the saved row keeps the member's email; an empty picture is saved as
      none. */
  lemma AcceptedFormSaved(form: Form, u: Schema.User, now: Common.Time)
    requires Accepted(form)
    ensures Profile.Complete(RequestOf(form))
    ensures Profile.ApplyEdit(u, RequestOf(form), now).email == u.email
    ensures form.profilePicture == "" ==> Profile.ApplyEdit(u, RequestOf(form), now).profilePicture.None?
  {
    assert Check(form).phone.None?;
  }

  /** `handleSubmit(onSubmit)`: a form with a failing rule is not submitted;
      otherwise the guard (which clears the message shown) and the request
      is sent. */
  method OnSubmit(page: SubmitState, form: Form) returns (sent: Option<Profile.Request>)
    modifies page
    ensures !Accepted(form) || old(page.submitting) ==> sent.None? && unchanged(page)
    ensures Accepted(form) && !old(page.submitting) ==>
              sent == Some(RequestOf(form)) && page.submitting && page.error == "" && !page.succeeded
  {
    if !Accepted(form) {
      return None;
    }
    var started := page.Begin();
    if !started {
      return None;
    }
    return Some(RequestOf(form));
  }

  /** The message a failed update shows: the thrown one, or the page's own
      when that is empty. */
  function FailureText(thrown: string): (m: string)
    ensures m != ""
    ensures thrown != "" ==> m == thrown
  {
    if thrown != "" then thrown else UpdateFailedMsg
  }

  /** Success shows `UpdatedMsg` (`succeeded`); a failure shows its
      message. */
  method Settle(page: SubmitState, outcome: Result<()>)
    modifies page
    ensures !page.submitting
    ensures outcome.Ok? ==> page.succeeded && page.error == old(page.error)
    ensures outcome.Err? ==> page.error == FailureText(outcome.error) && page.succeeded == old(page.succeeded)
  {
    if outcome.Ok? {
      page.Succeed();
    } else {
      page.Fail(FailureText(outcome.error));
    }
  }

  /** The page's own message shows only for a call that failed with an
      empty message: a refusal from the session store always has one. */
  lemma RefusalShowsItsOwnMessage(answer: Answer<UserRecord>)
    requires answer.Refused?
    ensures FailureText(Message(answer, AuthProvider.UpdateFailedMsg)) == Message(answer, AuthProvider.UpdateFailedMsg)
  {
  }
}
