/**
 * The sign-in page: the address (kept in the session) and the password.
 * Empty fields are reported before anything is sent; a refused sign-in is
 * explained from the reason the auth layer gives, and each alert's confirm
 * button puts the focus on the field to correct (0 address, 1 password).
 */
module Signin {
  import opened Wrappers

  const BOTH_MISSING := "아이디와 비밀번호를 입력해주세요"
  const EMAIL_MISSING := "아이디를 입력해주세요"
  const PASSWORD_MISSING := "비밀번호를 입력해주세요"
  const WRONG_PASSWORD := "비밀번호가 일치하지 않습니다"
  const NO_SUCH_USER := "아이디가 존재하지 않습니다"
  const NO_MATCH := "아이디와 비밀번호가 일치하지 않습니다"
  const HOME := "/"

  const EMAIL_INPUT: nat := 0
  const PASSWORD_INPUT: nat := 1

  /** `PromiseResult.reason`, absent when the auth layer gives none. */
  datatype Reason = UserNotFound | WrongPassword | UnknownError | NoReason

  /** `signin(email, password)`'s answer. */
  datatype Answer = Answer(success: bool, reason: Reason)

  /** An alert and the input its confirm button focuses. */
  datatype Alert = Alert(message: string, target: nat)

  datatype Outcome = Shown(alert: Alert) | Navigate(path: string)

  /** What `handleLogin` did: the outcome, and whether the auth layer was asked. */
  datatype Decision = Decision(outcome: Outcome, called: bool)

  /** The empty-field table checked before signing in. */
  function EmptyFieldAlert(email: string, password: string): (r: Option<Alert>)
    ensures r.None? <==> email != "" && password != ""
    ensures email == "" && password == "" ==> r == Some(Alert(BOTH_MISSING, EMAIL_INPUT))
    ensures email == "" && password != "" ==> r == Some(Alert(EMAIL_MISSING, EMAIL_INPUT))
    ensures email != "" && password == "" ==> r == Some(Alert(PASSWORD_MISSING, PASSWORD_INPUT))
  {
    if email == "" && password == "" then Some(Alert(BOTH_MISSING, EMAIL_INPUT))
    else if email == "" then Some(Alert(EMAIL_MISSING, EMAIL_INPUT))
    else if password == "" then Some(Alert(PASSWORD_MISSING, PASSWORD_INPUT))
    else None
  }

  /** The alert for a refused sign-in. */
  function FailureAlert(reason: Reason): (r: Alert)
    ensures r.target == PASSWORD_INPUT <==> reason == WrongPassword
    ensures reason == WrongPassword ==> r.message == WRONG_PASSWORD
    ensures reason == UserNotFound ==> r == Alert(NO_SUCH_USER, EMAIL_INPUT)
    ensures reason != WrongPassword && reason != UserNotFound ==> r == Alert(NO_MATCH, EMAIL_INPUT)
  {
    match reason
    case WrongPassword => Alert(WRONG_PASSWORD, PASSWORD_INPUT)
    case UserNotFound => Alert(NO_SUCH_USER, EMAIL_INPUT)
    case _ => Alert(NO_MATCH, EMAIL_INPUT)
  }

  /** `handleLogin`. `answer` is what the auth layer answers when it is asked. */
  function Login(email: string, password: string, answer: Answer): (r: Decision)
    ensures r.called <==> email != "" && password != ""
    ensures !r.called ==> r.outcome == Shown(EmptyFieldAlert(email, password).value)
    ensures r.called && answer.success ==> r.outcome == Navigate(HOME)
    ensures r.called && !answer.success ==> r.outcome == Shown(FailureAlert(answer.reason))
  {
    var missing := EmptyFieldAlert(email, password);
    if missing.Some? then Decision(Shown(missing.value), false)
    else if answer.success then Decision(Navigate(HOME), true)
    else Decision(Shown(FailureAlert(answer.reason)), true)
  }

  /** Every alert focuses one of the two inputs the page hands to the alert. */
  lemma TargetsInRange(email: string, password: string, answer: Answer)
    ensures Login(email, password, answer).outcome.Shown? ==> Login(email, password, answer).outcome.alert.target < 2
  {
  }

  /** The answer of the auth layer makes no difference while a field is empty. */
  lemma EmptyFieldIgnoresAnswer(email: string, password: string, a: Answer, b: Answer)
    requires email == "" || password == ""
    ensures Login(email, password, a) == Login(email, password, b)
  {
  }

  /** The page state and its `login_email` session entry. */
  class Page {
    var email: string
    var password: string
    var savedEmail: Option<string>

    /** The address starts from the session entry, the password empty. */
    constructor (session: Option<string>)
      ensures email == session.GetOr("") && password == "" && savedEmail == session
    {
      email := session.GetOr("");
      password := "";
      savedEmail := session;
    }

    /** `handleEmailChange`: the address is saved on every change. */
    method ChangeEmail(value: string)
      modifies this`email, this`savedEmail
      ensures email == value && savedEmail == Some(value)
    {
      email := value;
      savedEmail := Some(value);
    }

    /** `handlePasswordChange`: the password is never saved. */
    method ChangePassword(value: string)
      modifies this`password
      ensures password == value
    {
      password := value;
    }

    /** `handleLogin` on the current fields. */
    method HandleLogin(answer: Answer) returns (d: Decision)
      ensures d == Login(email, password, answer)
    {
      if email == "" && password == "" {
        return Decision(Shown(Alert(BOTH_MISSING, EMAIL_INPUT)), false);
      }
      if email == "" {
        return Decision(Shown(Alert(EMAIL_MISSING, EMAIL_INPUT)), false);
      }
      if password == "" {
        return Decision(Shown(Alert(PASSWORD_MISSING, PASSWORD_INPUT)), false);
      }
      if !answer.success {
        return Decision(Shown(FailureAlert(answer.reason)), true);
      }
      d := Decision(Navigate(HOME), true);
    }
  }
}
