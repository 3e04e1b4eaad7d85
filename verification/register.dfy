/**
 * The registration form's submit handler: the password and its confirmation must
 * agree and be at least eight UTF-16 code units long before the account is
 * registered, and the form stays busy unless registration fails.
 */
module Register {
  import opened Js

  const MismatchMessage := "Passwords do not match"
  const TooShortMessage := "Password must be at least 8 characters"
  const MinPasswordLength := 8

  /** A notification: `toast.success` or `toast.error`, with its title and optional description. */
  datatype Toast = Toast(success: bool, title: string, description: Option<string>)

  /** The arguments of a `register` call. */
  datatype Credentials = Credentials(username: string, email: string, password: string)

  /** What `register` resolves to: `{ success: true }` or `{ success: false, error }`. */
  datatype Outcome = Registered | Failed(error: string)

  /** The form state `handleSubmit` changes: the busy flag, the notifications shown, and the `register` calls made. */
  datatype FormState = FormState(loading: bool, toasts: seq<Toast>, calls: seq<Credentials>)

  /**
   * The complaint about a password, if any; a mismatch is reported before the
   * length, and the length counts UTF-16 code units (`password.length`).
   */
  function PasswordError(password: string, confirmPassword: string): (r: Option<string>)
    ensures r.None? <==> password == confirmPassword && Utf16Length(password) >= MinPasswordLength
    ensures password != confirmPassword ==> r == Some(MismatchMessage)
    ensures password == confirmPassword && Utf16Length(password) < MinPasswordLength ==> r == Some(TooShortMessage)
  {
    if password != confirmPassword then Some(MismatchMessage)
    else if Utf16Length(password) < MinPasswordLength then Some(TooShortMessage)
    else None
  }

  /** The form state after one submit, when `register` would resolve to `outcome`. */
  function Submitted(before: FormState, username: string, email: string, password: string, confirmPassword: string,
                     outcome: Outcome): FormState
  {
    match PasswordError(password, confirmPassword)
    case Some(message) => before.(toasts := before.toasts + [Toast(false, message, None)])
    case None =>
      var calls := before.calls + [Credentials(username, email, password)];
      match outcome
      case Registered =>
        FormState(true, before.toasts + [Toast(true, "Account created!", Some("Your encryption keys have been generated"))], calls)
      case Failed(error) =>
        FormState(false, before.toasts + [Toast(false, "Registration failed", Some(error))], calls)
  }

  /** `register` is called exactly when the password matches its confirmation and is long enough, and with what was typed. */
  lemma RegistersOnlyValid(before: FormState, username: string, email: string, password: string, confirmPassword: string,
                           outcome: Outcome)
    ensures var after := Submitted(before, username, email, password, confirmPassword, outcome);
      (after.calls == before.calls + [Credentials(username, email, password)] <==>
        password == confirmPassword && Utf16Length(password) >= MinPasswordLength)
      && (after.calls == before.calls <==> !(password == confirmPassword && Utf16Length(password) >= MinPasswordLength))
  {
    var after := Submitted(before, username, email, password, confirmPassword, outcome);
    if after.calls == before.calls + [Credentials(username, email, password)] {
      assert |after.calls| != |before.calls|;
    }
  }

  /** A mismatch is reported whatever the length, and nothing else changes; no short password is reported then. */
  lemma MismatchFirst(before: FormState, username: string, email: string, password: string, confirmPassword: string,
                      outcome: Outcome)
    requires password != confirmPassword
    ensures Submitted(before, username, email, password, confirmPassword, outcome)
      == FormState(before.loading, before.toasts + [Toast(false, MismatchMessage, None)], before.calls)
  {
  }

  /** A matching password of exactly eight code units is accepted; one of seven is refused. */
  lemma EightIsEnough(before: FormState, username: string, email: string, password: string, outcome: Outcome)
    requires Utf16Length(password) == MinPasswordLength || Utf16Length(password) == MinPasswordLength - 1
    ensures var after := Submitted(before, username, email, password, password, outcome);
      |after.calls| == |before.calls| + (if Utf16Length(password) == MinPasswordLength then 1 else 0)
  {
  }

  /**
   * After a submit that reaches `register`, the form is busy unless registration
   * failed; a submit that is refused leaves the flag as it was.
   */
  lemma LoadingAfterSubmit(before: FormState, username: string, email: string, password: string, confirmPassword: string,
                           outcome: Outcome)
    ensures var after := Submitted(before, username, email, password, confirmPassword, outcome);
      after.loading == if PasswordError(password, confirmPassword).Some? then before.loading else outcome.Registered?
  {
  }

  /** Every `register` call made through the form carries a password of at least eight code units. */
  lemma CallsValid(before: FormState, username: string, email: string, password: string,
                    confirmPassword: string, outcome: Outcome)
    requires forall i :: 0 <= i < |before.calls| ==> Utf16Length(before.calls[i].password) >= MinPasswordLength
    ensures var after := Submitted(before, username, email, password, confirmPassword, outcome);
      forall i :: 0 <= i < |after.calls| ==> Utf16Length(after.calls[i].password) >= MinPasswordLength
  {
    RegistersOnlyValid(before, username, email, password, confirmPassword, outcome);
  }

  /** The registration form component. */
  class RegisterForm {
    var username: string
    var email: string
    var password: string
    var confirmPassword: string
    /** The `loading` state, which disables the submit button. */
    var loading: bool
    /** The notifications shown so far, oldest first. */
    var toasts: seq<Toast>
    /** The `register` calls made so far, oldest first. */
    var calls: seq<Credentials>

    constructor ()
      ensures username == "" && email == "" && password == "" && confirmPassword == ""
      ensures State() == FormState(false, [], [])
    {
      username, email, password, confirmPassword := "", "", "", "";
      loading, toasts, calls := false, [], [];
    }

    function State(): FormState
      reads this`loading, this`toasts, this`calls
    {
      FormState(loading, toasts, calls)
    }

    /** The inputs' `onChange` handlers. */
    method Fill(username': string, email': string, password': string, confirmPassword': string)
      modifies this`username, this`email, this`password, this`confirmPassword
      ensures username == username' && email == email' && password == password' && confirmPassword == confirmPassword'
    {
      username, email, password, confirmPassword := username', email', password', confirmPassword';
    }

    /**
     * `handleSubmit`: refuses a mismatched or short password with an error toast;
     * otherwise sets `loading`, calls `register`, and on failure shows the error and
     * clears `loading`.
     */
    method HandleSubmit(outcome: Outcome)
      modifies this`loading, this`toasts, this`calls
      ensures State() == Submitted(old(State()), username, email, password, confirmPassword, outcome)
    {
      if password != confirmPassword {
        toasts := toasts + [Toast(false, MismatchMessage, None)];
        return;
      }
      if Utf16Length(password) < MinPasswordLength {
        toasts := toasts + [Toast(false, TooShortMessage, None)];
        return;
      }
      loading := true;
      calls := calls + [Credentials(username, email, password)];
      match outcome
      case Registered =>
        toasts := toasts + [Toast(true, "Account created!", Some("Your encryption keys have been generated"))];
      case Failed(error) =>
        toasts := toasts + [Toast(false, "Registration failed", Some(error))];
        loading := false;
    }
  }
}
