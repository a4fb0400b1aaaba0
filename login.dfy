/** The login page's submit handler: it clears the error, shows the spinner,
    asks the backend to log in, records the user in the auth store, sends
    admins and coaches to their area and shows an error to everyone else,
    and hides the spinner whatever happened. */
module LoginFlow {
  import opened Wrappers
  import opened Records
  import Routes

  /** How the backend's login call ended: with a user, or by throwing;
      `Threw(None)` is a thrown value that is not an `Error`. */
  datatype LoginOutcome = Returned(user: User) | Threw(message: Option<string>)

  /** What the handler does, in order. */
  datatype Event =
    | SetError(text: string)
    | SetLoading(on: bool)
    | CallLogin(phone: string, password: string)
    | StoreLogin(user: User)
    | Navigate(to: Routes.Path)

  const AccessDenied: string := "Access denied. Only admin and coach can login."
  const LoginFailed: string := "Login failed"

  /** The event a returned user's role leads to. */
  function Dispatch(u: User): Event {
    if u.role == Some("admin") then Navigate(Routes.Index(Routes.AdminArea))
    else if u.role == Some("coach") then Navigate(Routes.Index(Routes.CoachArea))
    else SetError(AccessDenied)
  }

  /** The events of one submission. */
  function SubmitEvents(phone: string, password: string, outcome: LoginOutcome): seq<Event> {
    [SetError(""), SetLoading(true), CallLogin(phone, password)] +
    (match outcome
     case Returned(u) => [StoreLogin(u), Dispatch(u)]
     case Threw(m) => [SetError(m.GetOr(LoginFailed))]) +
    [SetLoading(false)]
  }

  /** The error text after a submission. */
  function ErrorAfter(outcome: LoginOutcome): string {
    match outcome
    case Returned(u) => if Dispatch(u).SetError? then AccessDenied else ""
    case Threw(m) => m.GetOr(LoginFailed)
  }

  /** The auth store after a submission: the returned user is signed in, and
      a failed call leaves it as it was. */
  function SessionAfter(session: Routes.Session, outcome: LoginOutcome): Routes.Session {
    match outcome
    case Returned(u) => Routes.Session(true, u.role)
    case Threw(_) => session
  }

  class LoginPage {
    var phone: string
    var password: string
    var error: string
    var loading: bool
    /** The auth store's state, which `login(user)` sets. */
    var session: Routes.Session
    /** Where the router is. */
    var location: Routes.Path
    /** Everything the handlers have done so far, in order. */
    ghost var events: seq<Event>

    constructor (session: Routes.Session)
      ensures phone == "" && password == "" && error == "" && !loading
      ensures this.session == session && location == Routes.Home && events == []
    {
      phone, password, error, loading := "", "", "", false;
      this.session := session;
      location := Routes.Home;
      events := [];
    }

    /** `handleSubmit`, with the backend's answer as `outcome`. */
    method HandleSubmit(outcome: LoginOutcome)
      modifies this
      ensures phone == old(phone) && password == old(password)
      ensures events == old(events) + SubmitEvents(phone, password, outcome)
      ensures error == ErrorAfter(outcome) && !loading
      ensures session == SessionAfter(old(session), outcome)
      ensures location == (if outcome.Returned? && Dispatch(outcome.user).Navigate? then Dispatch(outcome.user).to else old(location))
    {
      error := "";
      loading := true;
      var steps := [SetError(""), SetLoading(true), CallLogin(phone, password)];
      match outcome {
        case Returned(u) =>
          session := Routes.Session(true, u.role);
          steps := steps + [StoreLogin(u)];
          if u.role == Some("admin") {
            location := Routes.Index(Routes.AdminArea);
            steps := steps + [Navigate(location)];
          } else if u.role == Some("coach") {
            location := Routes.Index(Routes.CoachArea);
            steps := steps + [Navigate(location)];
          } else {
            error := AccessDenied;
            steps := steps + [SetError(error)];
          }
        case Threw(m) =>
          error := if m.Some? then m.value else LoginFailed;
          steps := steps + [SetError(error)];
      }
      loading := false;
      events := events + steps + [SetLoading(false)];
    }
  }

  /** Every submission clears the error and turns the spinner on before the
      login call, and ends with the spinner off. */
  lemma SpinnerAroundCall(phone: string, password: string, outcome: LoginOutcome)
    ensures var e := SubmitEvents(phone, password, outcome);
            |e| >= 5 && e[..3] == [SetError(""), SetLoading(true), CallLogin(phone, password)] && e[|e| - 1] == SetLoading(false)
    ensures forall i :: 0 <= i < |SubmitEvents(phone, password, outcome)| && SubmitEvents(phone, password, outcome)[i] == CallLogin(phone, password) ==> i == 2
  {
  }

  /** Admins go to /admin and coaches to /coach; any other role gets the
      access-denied error, after the store has already recorded the login;
      a failed call shows the thrown message, or 'Login failed', and never
      touches the store. */
  lemma RoleDispatch(phone: string, password: string, outcome: LoginOutcome)
    ensures var e := SubmitEvents(phone, password, outcome);
            (outcome.Returned? && outcome.user.role == Some("admin") <==> Navigate(["admin"]) in e) &&
            (outcome.Returned? && outcome.user.role == Some("coach") <==> Navigate(["coach"]) in e) &&
            (outcome.Returned? <==> exists u :: StoreLogin(u) in e)
    ensures outcome.Returned? && outcome.user.role != Some("admin") && outcome.user.role != Some("coach") ==>
              SubmitEvents(phone, password, outcome)[3] == StoreLogin(outcome.user) &&
              SubmitEvents(phone, password, outcome)[4] == SetError(AccessDenied)
    ensures outcome.Threw? ==> ErrorAfter(outcome) == outcome.message.GetOr(LoginFailed)
    ensures outcome.Threw? ==> forall s :: SessionAfter(s, outcome) == s
  {
    var e := SubmitEvents(phone, password, outcome);
    if Navigate(["admin"]) in e || Navigate(["coach"]) in e {
      var i :| 0 <= i < |e| && (e[i] == Navigate(["admin"]) || e[i] == Navigate(["coach"]));
      assert i == 4;
    }
    if outcome.Returned? {
      assert StoreLogin(outcome.user) == e[3];
    }
  }

  /** As written, a user whose role is neither 'admin' nor 'coach' is
      signed in before the role is checked, so "/" no longer shows the login
      page (and its access-denied message) but bounces between "/" and
      "/coach" forever. */
  lemma DeniedLoginBounces(session: Routes.Session, u: User, steps: nat)
    requires u.role != Some("admin") && u.role != Some("coach")
    ensures ErrorAfter(Returned(u)) == AccessDenied
    ensures SessionAfter(session, Returned(u)).isAuthenticated
    ensures Routes.Follow(Routes.Home, SessionAfter(session, Returned(u)), steps).Redirect?
  {
    Routes.OtherRolesNeverSettle(SessionAfter(session, Returned(u)), Routes.Home, steps);
  }

  /** The store after a submission when only admins and coaches are signed
      in: a denied user leaves the store as it was. */
  function CheckedSessionAfter(session: Routes.Session, outcome: LoginOutcome): (r: Routes.Session)
    ensures outcome.Returned? && Dispatch(outcome.user).Navigate? ==> r == SessionAfter(session, outcome)
    ensures !(outcome.Returned? && Dispatch(outcome.user).Navigate?) ==> r == session
  {
    match outcome
    case Returned(u) => if Dispatch(u).Navigate? then Routes.Session(true, u.role) else session
    case Threw(_) => session
  }

  /** With the check first, a visitor who is denied stays on the login page
      with the access-denied message, and admins and coaches still reach
      their dashboards. */
  lemma CheckedDeniedStaysOnLogin(u: User, steps: nat)
    ensures var s := CheckedSessionAfter(Routes.Session(false, None), Returned(u));
            (u.role != Some("admin") && u.role != Some("coach") ==>
               ErrorAfter(Returned(u)) == AccessDenied && Routes.Follow(Routes.Home, s, steps) == Routes.Login) &&
            (u.role == Some("admin") ==> Routes.Follow(Routes.Home, s, 1) == Routes.Render(Routes.AdminArea, "")) &&
            (u.role == Some("coach") ==> Routes.Follow(Routes.Home, s, 1) == Routes.Render(Routes.CoachArea, ""))
  {
    var s := CheckedSessionAfter(Routes.Session(false, None), Returned(u));
    if u.role == Some("admin") || u.role == Some("coach") {
      Routes.SignedInReachDashboard(s);
    }
  }
}
