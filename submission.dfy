/** The submit flow every form page follows: a submit while one is in flight
    is ignored; a new submit clears the message shown; the awaited call then
    either succeeds or leaves its error message on the page, and the page is
    free to submit again. The request itself is the page's business. */
module Submission {

  class SubmitState {
    /** `isSubmitting`. */
    var submitting: bool
    /** The error shown on the page, `""` (or `null`) when there is none. */
    var error: string
    /** The page's success state: the success view or banner, or for the
        dashboard forms the form being closed. */
    var succeeded: bool

    constructor ()
      ensures !submitting && error == "" && !succeeded
    {
      submitting := false;
      error := "";
      succeeded := false;
    }

    /** `if (isSubmitting) return; setIsSubmitting(true); setError('')`. */
    method Begin() returns (started: bool)
      modifies this
      ensures started <==> !old(submitting)
      ensures started ==> submitting && error == "" && !succeeded
      ensures !started ==> unchanged(this)
    {
      if submitting {
        return false;
      }
      submitting := true;
      error := "";
      succeeded := false;
      return true;
    }

    /** The call resolved. */
    method Succeed()
      modifies this
      ensures !submitting && succeeded && error == old(error)
    {
      submitting := false;
      succeeded := true;
    }

    /** The call threw: its message is shown and there is no success. */
    method Fail(message: string)
      modifies this
      ensures !submitting && error == message && succeeded == old(succeeded)
    {
      submitting := false;
      error := message;
    }

    /** The call resolved and the page moves on without a success state
        (the sign-in page navigates away). */
    method Release()
      modifies this
      ensures !submitting && error == old(error) && succeeded == old(succeeded)
    {
      submitting := false;
    }

    /** A message set without starting a submit. */
    method Report(message: string)
      modifies this
      ensures error == message && submitting == old(submitting) && succeeded == old(succeeded)
    {
      error := message;
    }
  }
}
