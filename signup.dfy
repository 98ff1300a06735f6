/** The sign-up page's submit handler (src/pages/Signup.tsx): two confirmation
    checks before any backend call, and the `isLoading` flag around the call. */
module Signup {
  import opened Types

  /** The result of the pre-submit checks. */
  datatype Check = EmailsDiffer | PasswordsDiffer | Proceed

  /** The early returns of `handleSubmit`: exact string equality, email first. */
  function CheckConfirmation(email: string, confirmEmail: string,
                             password: string, confirmPassword: string): (c: Check)
    ensures c == Proceed <==> email == confirmEmail && password == confirmPassword
    ensures c == EmailsDiffer <==> email != confirmEmail
    ensures c == PasswordsDiffer <==> email == confirmEmail && password != confirmPassword
  {
    if email != confirmEmail then EmailsDiffer
    else if password != confirmPassword then PasswordsDiffer
    else Proceed
  }

  /** The error toast a failed check shows. */
  function CheckMessage(c: Check): (m: Option<string>)
    ensures m.None? <==> c == Proceed
    ensures c == EmailsDiffer ==> m == Some("Emails do not match")
    ensures c == PasswordsDiffer ==> m == Some("Passwords do not match")
  {
    match c
    case EmailsDiffer => Some("Emails do not match")
    case PasswordsDiffer => Some("Passwords do not match")
    case Proceed => None
  }

  /** Only the email error is reported when both pairs differ, and the
      comparison neither trims nor folds case. */
  lemma CheckExamples()
    ensures CheckMessage(CheckConfirmation("a@x.ma", "b@x.ma", "p1", "p2")) == Some("Emails do not match")
    ensures CheckConfirmation("a@x.ma", "A@x.ma", "p", "p") == EmailsDiffer
    ensures CheckConfirmation("a@x.ma", "a@x.ma ", "p", "p") == EmailsDiffer
  {
  }

  /** What is sent to the auth backend. */
  datatype SignUpRequest = SignUpRequest(email: string, password: string, name: string, userType: string)

  /** How the sign-up attempt ends: success, or an error thrown by the auth
      call or the profile insert, carrying its (possibly empty) message. */
  datatype SignUpOutcome = Succeeded | AuthFailed(message: string) | ProfileFailed(message: string)

  const SuccessMessage: string := "Please check your email to verify your account"
  const FallbackError: string := "Failed to create account"

  /** The toast shown after the attempt: `error.message || "Failed to create account"`. */
  function OutcomeMessage(o: SignUpOutcome): (m: string)
    ensures o.Succeeded? ==> m == SuccessMessage
    ensures !o.Succeeded? && o.message != "" ==> m == o.message
    ensures !o.Succeeded? && o.message == "" ==> m == FallbackError
    ensures m != ""
  {
    match o
    case Succeeded => SuccessMessage
    case AuthFailed(msg) => OrElse(Some(msg), FallbackError)
    case ProfileFailed(msg) => OrElse(Some(msg), FallbackError)
  }

  /** The page's `isLoading` state and the sign-up calls it has made. */
  class SignupPage {
    var isLoading: bool
    var requests: seq<SignUpRequest>

    constructor ()
      ensures !isLoading && requests == []
    {
      isLoading, requests := false, [];
    }

    /** `handleSubmit` up to the awaited sign-up call: a failed check returns
        early with no call; otherwise `isLoading` is set and the call is made. */
    method HandleSubmit(email: string, confirmEmail: string, password: string,
                        confirmPassword: string, name: string, userType: string)
      returns (c: Check)
      modifies this
      ensures c == CheckConfirmation(email, confirmEmail, password, confirmPassword)
      ensures isLoading == (c == Proceed || old(isLoading))
      ensures requests == old(requests) +
                (if c == Proceed then [SignUpRequest(email, password, name, userType)] else [])
    {
      c := CheckConfirmation(email, confirmEmail, password, confirmPassword);
      if c == Proceed {
        isLoading := true;
        requests := requests + [SignUpRequest(email, password, name, userType)];
      }
    }

    /** The rest of `handleSubmit` once the call settles; the `finally` block
        clears `isLoading` whatever the outcome. */
    method Settle(outcome: SignUpOutcome) returns (message: string)
      requires isLoading
      modifies this`isLoading
      ensures !isLoading
      ensures message == OutcomeMessage(outcome)
    {
      message := OutcomeMessage(outcome);
      isLoading := false;
    }
  }
}
