/**
 * The sign-up form: four checks run in order and the first that fails
 * decides the message; when all pass, the account is registered with the
 * trimmed user name and the password exactly as typed, and on success the
 * token and the user name are stored. Registration is a parameter: its
 * outcome arrives as a value; so is the translation function `t`.
 */
module Signup {
  import opened Wrappers
  import opened Strings
  import opened Storage
  import opened ApiClient

  datatype SignupError = FillAllFields | UsernameTooShort | PasswordTooShort | PasswordsMismatch

  /** The translation key of each message. */
  function MessageKey(e: SignupError): string {
    match e
    case FillAllFields => "signup.fillAllFields"
    case UsernameTooShort => "signup.usernameTooShort"
    case PasswordTooShort => "signup.passwordTooShort"
    case PasswordsMismatch => "signup.passwordsMismatch"
  }

  const RegistrationFailedKey := "signup.registrationFailed"

  /**
   * The checks of `handleSubmit`, first failure first: a field that is blank
   * once trimmed, a trimmed user name under three characters, a password
   * under six characters as typed, and a confirmation that differs.
   */
  function Validate(username: string, password: string, confirm: string): (r: Option<SignupError>)
    ensures r == Some(FillAllFields) <==> AllWhitespace(username) || AllWhitespace(password) || AllWhitespace(confirm)
    ensures r == Some(UsernameTooShort) <==>
      !AllWhitespace(username) && !AllWhitespace(password) && !AllWhitespace(confirm) && |Trim(username)| < 3
    ensures r == Some(PasswordTooShort) <==>
      !AllWhitespace(password) && !AllWhitespace(confirm) && |Trim(username)| >= 3 && |password| < 6
    ensures r == Some(PasswordsMismatch) <==>
      !AllWhitespace(password) && !AllWhitespace(confirm) && |Trim(username)| >= 3 && |password| >= 6
      && password != confirm
    ensures r.None? <==> |Trim(username)| >= 3 && |password| >= 6 && password == confirm && !AllWhitespace(password)
  {
    if Trim(username) == [] || Trim(password) == [] || Trim(confirm) == [] then Some(FillAllFields)
    else if |Trim(username)| < 3 then Some(UsernameTooShort)
    else if |password| < 6 then Some(PasswordTooShort)
    else if password != confirm then Some(PasswordsMismatch)
    else None
  }

  /**
   * The password is measured as typed: whitespace around it counts towards
   * the six characters, so padding can carry a short password past the check.
   */
  lemma {:induction false} UntrimmedPasswordCounts(username: string, w1: string, p: string, w2: string)
    requires AllWhitespace(w1) && AllWhitespace(w2) && !AllWhitespace(p) && |Trim(username)| >= 3
    ensures var typed := w1 + p + w2;
      Validate(username, typed, typed) == if |w1| + |p| + |w2| >= 6 then None else Some(PasswordTooShort)
  {
    var typed := w1 + p + w2;
    var k :| 0 <= k < |p| && !IsWhitespace(p[k]);
    assert typed[|w1| + k] == p[k];
  }

  /**
   * The user name is measured trimmed: whitespace around it never changes
   * the verdict, so padding does not make a short name long enough.
   */
  lemma TrimmedUsernameCounts(w1: string, name: string, w2: string, password: string, confirm: string)
    requires AllWhitespace(w1) && AllWhitespace(w2) && IsTrimmed(name)
    ensures Validate(w1 + name + w2, password, confirm) == Validate(name, password, confirm)
  {
    TrimPadded(w1, name, w2);
    TrimOfTrimmed(name);
  }

  /** What the registration call delivers: the new account, or a thrown error with its body `error` field and message. */
  datatype RegisterOutcome =
    | Registered(token: string, username: string)
    | RegisterThrew(bodyError: Option<string>, message: Option<string>)

  class SignupPage {
    const store: LocalStorage
    /** The context's `t`, here applied to keys without parameters. */
    const t: string -> string
    var username: string
    var password: string
    var confirmPassword: string
    var error: string
    var isLoading: bool

    constructor (store: LocalStorage, t: string -> string)
      ensures this.store == store && this.t == t
      ensures username == [] && password == [] && confirmPassword == [] && error == [] && !isLoading
    {
      this.store := store;
      this.t := t;
      username, password, confirmPassword, error := [], [], [], [];
      isLoading := false;
    }

    /**
     * The synchronous half of `handleSubmit`: a failed check sets its
     * translated message and registers nothing; otherwise the error is
     * cleared, the form is busy, and registration is asked for with the
     * trimmed user name and the untouched password.
     */
    method BeginSubmit() returns (call: Option<(string, string)>)
      modifies this
      ensures call.Some? <==> Validate(username, password, confirmPassword).None?
      ensures call.Some? ==> call.value == (Trim(username), password) && error == [] && isLoading
      ensures call.None? ==>
        error == t(MessageKey(Validate(username, password, confirmPassword).value))
        && isLoading == old(isLoading)
      ensures username == old(username) && password == old(password) && confirmPassword == old(confirmPassword)
    {
      var failure := Validate(username, password, confirmPassword);
      if failure.Some? {
        error := t(MessageKey(failure.value));
        return None;
      }
      error := [];
      isLoading := true;
      call := Some((Trim(username), password));
    }

    /**
     * The second half: a new account stores its token and user name and is
     * reported signed up; a thrown error sets the body's `error`, else the
     * error's message, else the translated failure text. Either way the form
     * is no longer busy.
     */
    method FinishSubmit(outcome: RegisterOutcome) returns (signedUp: Option<string>)
      modifies this, store
      ensures !isLoading
      ensures outcome.Registered? ==>
        && signedUp == Some(outcome.username) && error == old(error)
        && store.items == old(store.items)[TokenKey := outcome.token][UserKey := outcome.username]
      ensures outcome.RegisterThrew? ==>
        && signedUp.None? && store.items == old(store.items)
        && error == Or(outcome.bodyError, Or(outcome.message, t(RegistrationFailedKey)))
      ensures username == old(username) && password == old(password) && confirmPassword == old(confirmPassword)
    {
      match outcome {
        case Registered(token, name) =>
          SetToken(store, token);
          store.SetItem(UserKey, name);
          signedUp := Some(name);
        case RegisterThrew(bodyError, message) =>
          var fallback := t(RegistrationFailedKey);
          error := Or(bodyError, Or(message, fallback));
          signedUp := None;
      }
      isLoading := false;
    }
  }
}
