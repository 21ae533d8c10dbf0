/** The session store: the current user (or none) and a loading flag, changed
    by the startup session check, the backend's auth-change notifications,
    login and logout. The backend's answers are inputs: what the session check
    found, what signing in returned, what the user-row query returned. */
module AuthContext {
  import opened Wrappers
  import opened JsText

  datatype User = User(
    id: string, name: Option<string>, email: Option<string>, username: Option<string>,
    companyCode: Option<string>, role: string)

  datatype AuthState = AuthState(user: Option<User>, isLoading: bool)

  /** Before anything has been checked: no user, still loading. */
  const Initial: AuthState := AuthState(None, true)

  /** The user-row query by id: a failure (an error result or a thrown
      exception), or the row, which may be missing. */
  type FetchOutcome = Result<Option<User>, string>

  /** The three situations the store distinguishes. */
  datatype Phase = Loading | Anonymous | Authenticated(user: User)

  function PhaseOf(s: AuthState): Phase {
    if s.isLoading then Loading
    else match s.user
      case None => Anonymous
      case Some(u) => Authenticated(u)
  }

  /** Reading the user row: the user is replaced only by a row that came back
      without error; loading ends whatever happened. */
  function FetchUserData(s: AuthState, outcome: FetchOutcome): (t: AuthState)
    ensures !t.isLoading
    ensures t.user != s.user ==> outcome == Ok(t.user) && t.user.Some?
    ensures outcome.Ok? && outcome.value.Some? ==> t.user == outcome.value
  {
    match outcome
    case Ok(Some(u)) => AuthState(Some(u), false)
    case _ => s.(isLoading := false)
  }

  /** The startup session check: with a session, read its user's row;
      without one, just stop loading. */
  function Restore(s: AuthState, session: Option<string>, fetch: string -> FetchOutcome): (t: AuthState)
    ensures !t.isLoading
    ensures session.None? ==> t.user == s.user
    ensures session.Some? ==> t == FetchUserData(s, fetch(session.value))
  {
    match session
    case Some(userId) => FetchUserData(s, fetch(userId))
    case None => s.(isLoading := false)
  }

  /** An auth-state notification: a session means read the row; no session
      means signed out. */
  function AuthChanged(s: AuthState, session: Option<string>, fetch: string -> FetchOutcome): (t: AuthState)
    ensures !t.isLoading
    ensures session.None? ==> t.user.None?
    ensures session.Some? ==> t == FetchUserData(s, fetch(session.value))
  {
    match session
    case Some(userId) => FetchUserData(s, fetch(userId))
    case None => AuthState(None, false)
  }

  const EmailDomain: string := "@memora.local"

  /** The address the backend knows a user by: company code, a dash, the
      user name and the application's fixed domain. */
  function LoginEmail(companyCode: string, username: string): (email: string)
    ensures |email| == |companyCode| + 1 + |username| + |EmailDomain|
    ensures email[..|companyCode|] == companyCode && email[|companyCode|] == '-'
  {
    companyCode + "-" + username + EmailDomain
  }

  /** Reads an address back into company code and user name: the code runs
      up to the first dash, the name up to the domain suffix. */
  function SplitLoginEmail(email: string): (r: Option<(string, string)>)
  {
    if |email| < |EmailDomain| || email[|email| - |EmailDomain|..] != EmailDomain then None
    else
      var local := email[..|email| - |EmailDomain|];
      match IndexOf(local, '-')
      case None => None
      case Some(k) => Some((local[..k], local[k + 1..]))
  }

  /** A company code without a dash (the login page only lets digits through)
      is recovered, with the user name, from the address built from them. */
  lemma LoginEmailRoundTrip(companyCode: string, username: string)
    requires '-' !in companyCode
    ensures SplitLoginEmail(LoginEmail(companyCode, username)) == Some((companyCode, username))
  {
    var email := LoginEmail(companyCode, username);
    var local := companyCode + "-" + username;
    assert email == local + EmailDomain;
    assert email[..|email| - |EmailDomain|] == local;
    assert email[|email| - |EmailDomain|..] == EmailDomain;
    assert local[|companyCode|] == '-';
    assert local[..|companyCode|] == companyCode && local[|companyCode| + 1..] == username;
  }

  /** So two different logins with dash-free company codes never share an
      address. */
  lemma LoginEmailInjective(c1: string, u1: string, c2: string, u2: string)
    requires '-' !in c1 && '-' !in c2
    requires LoginEmail(c1, u1) == LoginEmail(c2, u2)
    ensures c1 == c2 && u1 == u2
  {
    LoginEmailRoundTrip(c1, u1);
    LoginEmailRoundTrip(c2, u2);
  }

  datatype Credentials = Credentials(email: string, password: string)

  /** Signing in: an error (returned or thrown, with its message if it has one),
      or success, which may or may not carry a user id. */
  datatype SignInOutcome = SignInError(message: Option<string>) | SignedIn(userId: Option<string>)

  /** The state after `login`, and the message of the error it throws, if any. */
  datatype LoginResult = LoginResult(state: AuthState, thrown: Option<string>)

  const LoginFailedMessage: string := "로그인에 실패했습니다"

  function Login(s: AuthState, companyCode: string, username: string, password: string,
                 signIn: Credentials -> SignInOutcome, fetch: string -> FetchOutcome): (r: LoginResult)
    ensures var outcome := signIn(Credentials(LoginEmail(companyCode, username), password));
            && (outcome.SignInError? ==> r.state == s && r.thrown.Some?)
            && (outcome.SignInError? && outcome.message.Some? && outcome.message.value != [] ==>
                  r.thrown == outcome.message)
            && (outcome.SignInError? && (outcome.message.None? || outcome.message == Some([])) ==>
                  r.thrown == Some(LoginFailedMessage))
            && (outcome.SignedIn? ==> r.thrown.None?)
            && (outcome.SignedIn? && outcome.userId.None? ==> r.state == s)
            && (outcome.SignedIn? && outcome.userId.Some? ==>
                  r.state == FetchUserData(s, fetch(outcome.userId.value)))
    ensures r.thrown.Some? ==> r.thrown.value != []
  {
    match signIn(Credentials(LoginEmail(companyCode, username), password))
    case SignInError(message) => LoginResult(s, Some(OrNull(message, LoginFailedMessage)))
    case SignedIn(None) => LoginResult(s, None)
    case SignedIn(Some(userId)) => LoginResult(FetchUserData(s, fetch(userId)), None)
  }

  const LoginPath: string := "/login"

  /** Logging out: the store drops its user and the browser is sent to the
      login page. */
  datatype LogoutStep = LogoutStep(state: AuthState, redirectTo: string)

  /** Logging out always ends with no user and a redirect to the login page;
      the loading flag is untouched. The redirect is a full page load, so the
      store it leaves behind lives only until the new document starts from
      `Initial`. */
  function Logout(s: AuthState): (r: LogoutStep)
    ensures r.state.user.None? && r.state.isLoading == s.isLoading
    ensures r.redirectTo == LoginPath
  {
    LogoutStep(s.(user := None), LoginPath)
  }

  // ---- Runs of events -----------------------------------------------------

  /** One event the store reacts to, carrying the backend's answers to the
      calls that event makes. A run is the life of one loaded document: after
      `LoggedOut` the redirect replaces the document, and the next one starts
      its own run from `Initial`. */
  datatype Event =
    | SessionChecked(session: Option<string>, fetched: FetchOutcome)
    | AuthStateChanged(session: Option<string>, fetched: FetchOutcome)
    | LoginAttempted(companyCode: string, username: string, password: string,
                     signedIn: SignInOutcome, fetched: FetchOutcome)
    | LoggedOut

  function Step(s: AuthState, e: Event): AuthState {
    match e
    case SessionChecked(session, fetched) => Restore(s, session, _ => fetched)
    case AuthStateChanged(session, fetched) => AuthChanged(s, session, _ => fetched)
    case LoginAttempted(companyCode, username, password, signedIn, fetched) =>
      Login(s, companyCode, username, password, _ => signedIn, _ => fetched).state
    case LoggedOut => Logout(s).state
  }

  function Run(s: AuthState, events: seq<Event>): AuthState
    decreases |events|
  {
    if events == [] then s else Run(Step(s, events[0]), events[1..])
  }

  /** The users the backend handed out, across a run. */
  ghost function FetchedUsers(events: seq<Event>): set<User>
    decreases |events|
  {
    if events == [] then {}
    else
      var here := match events[0]
        case LoggedOut => {}
        case _ => if events[0].fetched.Ok? && events[0].fetched.value.Some? then {events[0].fetched.value.value} else {};
      here + FetchedUsers(events[1..])
  }

  /** Once loading has ended it never starts again. */
  lemma {:induction false} LoadingNeverRestarts(s: AuthState, events: seq<Event>)
    requires !s.isLoading
    ensures !Run(s, events).isLoading
    decreases |events|
  {
    if events != [] {
      LoadingNeverRestarts(Step(s, events[0]), events[1..]);
    }
  }

  /** The store only ever holds a user it started with or one the backend
      returned: there is no partially authenticated state. */
  lemma {:induction false} UserProvenance(s: AuthState, events: seq<Event>)
    ensures Run(s, events).user.None?
            || Run(s, events).user == s.user
            || Run(s, events).user.value in FetchedUsers(events)
    decreases |events|
  {
    if events != [] {
      var t := Step(s, events[0]);
      UserProvenance(t, events[1..]);
      if t.user.Some? && t.user != s.user {
        assert events[0].fetched == Ok(t.user);
      }
    }
  }

  /** From the initial state, a startup check without a session yields an
      anonymous store. */
  lemma StartupWithoutSession(fetch: FetchOutcome)
    ensures PhaseOf(Step(Initial, SessionChecked(None, fetch))) == Anonymous
  {
  }
}
