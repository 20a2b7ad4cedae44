/** The sign-in form: its `error` and `isLoading` state and what submitting
    it does. */
module LoginPage {
  import opened Wrappers
  import opened App
  import opened AuthContext

  /** The value `await login(...)` settles to, as far as destructuring
      `{ error }` from it can tell: a boolean has no `error` property. */
  datatype JsValue = BoolValue(b: bool) | ObjectValue(error: Option<string>)

  datatype LoginReply = Resolved(value: JsValue) | Rejected

  const InvalidCredentials: string := "Invalid email or password"
  const RetryMessage: string := "An error occurred. Please try again."

  /** `const { error } = value`. */
  function ErrorField(v: JsValue): (e: Option<string>)
    ensures v.BoolValue? ==> e.None?
    ensures v.ObjectValue? ==> e == v.error
  {
    match v
    case BoolValue(_) => None
    case ObjectValue(e) => e
  }

  /** JavaScript truthiness of an optional string. */
  predicate Truthy(e: Option<string>) {
    e.Some? && e.value != ""
  }

  datatype SubmitResult = SubmitResult(error: string, navigateTo: Option<Path>)

  /** What the `try`/`catch` of `handleSubmit` leaves behind, as written:
      it tests the destructured `error`, which a boolean reply never has. */
  function SubmitOutcome(reply: LoginReply): (r: SubmitResult)
    ensures reply.Rejected? ==> r == SubmitResult(RetryMessage, None)
    ensures r.error == InvalidCredentials <==> reply.Resolved? && Truthy(ErrorField(reply.value))
    ensures r.navigateTo.Some? <==> reply.Resolved? && !Truthy(ErrorField(reply.value))
    ensures r.navigateTo.Some? ==> r.navigateTo.value == DashboardPath && r.error == ""
    // the reply of this application's `login` is a boolean, so it always navigates
    ensures reply.Resolved? && reply.value.BoolValue? ==> r == SubmitResult("", Some(DashboardPath))
  {
    match reply
    case Rejected => SubmitResult(RetryMessage, None)
    case Resolved(v) =>
      if Truthy(ErrorField(v)) then SubmitResult(InvalidCredentials, None)
      else SubmitResult("", Some(DashboardPath))
  }

  /** Whether a reply reports a successful sign-in: the boolean itself, or an
      object without a truthy `error`. */
  predicate Succeeded(v: JsValue) {
    match v
    case BoolValue(b) => b
    case ObjectValue(e) => !Truthy(e)
  }

  /** The evidently intended outcome: navigate only on success, otherwise show
      the generic message that does not say which of email or password was wrong. */
  function CheckedOutcome(reply: LoginReply): (r: SubmitResult)
    ensures r.navigateTo.Some? <==> reply.Resolved? && Succeeded(reply.value)
    ensures r.navigateTo.Some? ==> r.navigateTo.value == DashboardPath && r.error == ""
    ensures r.error == InvalidCredentials <==> reply.Resolved? && !Succeeded(reply.value)
    ensures reply.Rejected? ==> r == SubmitResult(RetryMessage, None)
  {
    match reply
    case Rejected => SubmitResult(RetryMessage, None)
    case Resolved(v) =>
      if Succeeded(v) then SubmitResult("", Some(DashboardPath))
      else SubmitResult(InvalidCredentials, None)
  }

  /** As written, a failed sign-in navigates to `/dashboard` without a message,
      and the route guard, seeing nobody signed in, sends the user straight back
      to `/login`. */
  lemma FailedSignInBouncesBack()
    ensures SubmitOutcome(Resolved(BoolValue(false))) == SubmitResult("", Some(DashboardPath))
    ensures Resolve(DashboardPath, false, None) == Navigate(LoginPath)
    ensures CheckedOutcome(Resolved(BoolValue(false))) == SubmitResult(InvalidCredentials, None)
  {
  }

  class LoginForm {
    var email: string
    var password: string
    var error: string
    var isLoading: bool

    constructor ()
      ensures email == "" && password == "" && error == "" && !isLoading
    {
      email, password, error, isLoading := "", "", "", false;
    }

    method SetEmail(value: string)
      modifies this
      ensures email == value && password == old(password) && error == old(error) && isLoading == old(isLoading)
    {
      email := value;
    }

    method SetPassword(value: string)
      modifies this
      ensures password == value && email == old(email) && error == old(error) && isLoading == old(isLoading)
    {
      password := value;
    }

    /** The start of `handleSubmit`: clear the message, show the spinner. */
    method BeginSubmit()
      modifies this
      ensures error == "" && isLoading
      ensures email == old(email) && password == old(password)
    {
      error := "";
      isLoading := true;
    }

    /** The end of `handleSubmit` once the call settles; the `finally` clears
        the spinner on every path. */
    method FinishSubmit(reply: LoginReply, checked: bool) returns (navigateTo: Option<Path>)
      requires isLoading && error == ""
      modifies this
      ensures var r := if checked then CheckedOutcome(reply) else SubmitOutcome(reply);
              error == r.error && navigateTo == r.navigateTo
      ensures !isLoading
      ensures email == old(email) && password == old(password)
    {
      var r := if checked then CheckedOutcome(reply) else SubmitOutcome(reply);
      if r.error != "" {
        error := r.error;
      }
      navigateTo := r.navigateTo;
      isLoading := false;
    }

    /** `handleSubmit` as written: whatever the sign-in decides, the form
        navigates to `/dashboard` and shows no message. */
    method HandleSubmit(auth: AuthProvider) returns (navigateTo: Option<Path>)
      requires auth.Valid()
      modifies this, auth
      ensures auth.Valid()
      ensures auth.isAuthenticated <==>
                (old(auth.isAuthenticated) || exists i :: 0 <= i < |auth.users| && EmailMatches(auth.users[i], old(email)))
      ensures navigateTo == Some(DashboardPath) && error == "" && !isLoading
      ensures email == old(email) && password == old(password)
      ensures (exists i :: 0 <= i < |auth.users| && EmailMatches(auth.users[i], old(email))) ==>
                (exists i :: FirstMatchAt(auth.users, old(email), i) && auth.currentUser == Some(auth.users[i])) &&
                auth.isAuthenticated && auth.storedUser == auth.currentUser
      ensures (forall i :: 0 <= i < |auth.users| ==> !EmailMatches(auth.users[i], old(email))) ==>
                auth.currentUser == old(auth.currentUser) && auth.isAuthenticated == old(auth.isAuthenticated) &&
                auth.storedUser == old(auth.storedUser)
    {
      BeginSubmit();
      var ok := auth.Login(email, password);
      navigateTo := FinishSubmit(Resolved(BoolValue(ok)), false);
    }

    /** `handleSubmit` reading the boolean `login` settles to: navigate on
        success, show the generic message on failure. */
    method HandleSubmitChecked(auth: AuthProvider) returns (navigateTo: Option<Path>)
      requires auth.Valid()
      modifies this, auth
      ensures auth.Valid()
      ensures navigateTo.Some? <==> exists i :: 0 <= i < |auth.users| && EmailMatches(auth.users[i], old(email))
      ensures navigateTo.Some? ==> navigateTo.value == DashboardPath && auth.isAuthenticated && error == ""
      ensures navigateTo.None? ==> error == InvalidCredentials
      ensures !isLoading
      ensures email == old(email) && password == old(password)
      ensures (exists i :: 0 <= i < |auth.users| && EmailMatches(auth.users[i], old(email))) ==>
                (exists i :: FirstMatchAt(auth.users, old(email), i) && auth.currentUser == Some(auth.users[i])) &&
                auth.isAuthenticated && auth.storedUser == auth.currentUser
      ensures (forall i :: 0 <= i < |auth.users| ==> !EmailMatches(auth.users[i], old(email))) ==>
                auth.currentUser == old(auth.currentUser) && auth.isAuthenticated == old(auth.isAuthenticated) &&
                auth.storedUser == old(auth.storedUser)
    {
      BeginSubmit();
      var ok := auth.Login(email, password);
      navigateTo := FinishSubmit(Resolved(BoolValue(ok)), true);
    }
  }
}
