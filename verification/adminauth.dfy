/**
 * The admin front end's authentication context: a small state machine over
 * the user, the token, an error message and two cookies. Only accounts whose
 * role is "ADMIN" are let in, both at login and when a session is restored
 * from the cookies.
 */
module AdminAuth {
  import opened Wrappers
  import opened Session

  const AdminRole := "ADMIN"
  const LoginPath := "/auth/login"
  const HomePath := "/"
  const NotAdminError := "Only Admin users are allowed to login."

  datatype State = State(user: Option<User>, token: Option<string>, hydrated: bool, error: Option<string>, cookies: Store)

  /** A transition, and the page the router is sent to, if any. */
  datatype Step = Step(state: State, redirect: Option<string>)

  /** The provider as first rendered, over whatever cookies the browser holds. */
  function Initial(cookies: Store): State {
    State(None, None, false, None, cookies)
  }

  /**
   * The restoring effect. With both cookies set it parses the user: an
   * admin is restored; any other account has both cookies removed, the
   * session cleared and, away from the login page, is sent there; text that
   * does not parse to an object has both cookies removed. Whatever happens,
   * the provider is hydrated afterwards.
   */
  function Hydrate(s: State, pathname: string, parse: string -> Parsed): (r: Step)
    ensures r.state.hydrated && r.state.error == s.error
    ensures !(Stored(s.cookies, TokenKey) && Stored(s.cookies, UserKey)) ==> r == Step(s.(hydrated := true), None)
    ensures Stored(s.cookies, TokenKey) && Stored(s.cookies, UserKey) ==>
      var parsed := parse(s.cookies[UserKey]);
      if parsed.Object? && parsed.user.role == AdminRole then
        r.state.user == Some(parsed.user) && r.state.token == Some(s.cookies[TokenKey])
        && r.state.cookies == s.cookies && r.redirect.None?
      else
        r.state.cookies == Forget(s.cookies)
        && (parsed.Object? ==> r.state.user.None? && r.state.token.None?)
        && (!parsed.Object? ==> r.state.user == s.user && r.state.token == s.token)
        && (r.redirect.Some? <==> parsed.Object? && pathname != LoginPath)
        && (r.redirect.Some? ==> r.redirect.value == LoginPath)
    ensures s.user.None? ==>
      (r.state.user.Some? <==>
         (Stored(s.cookies, TokenKey) && Stored(s.cookies, UserKey)
          && parse(s.cookies[UserKey]).Object? && parse(s.cookies[UserKey]).user.role == AdminRole))
    ensures s.user.None? && r.state.user.Some? ==> r.state.user.value.role == AdminRole
  {
    var done := s.(hydrated := true);
    if Stored(s.cookies, TokenKey) && Stored(s.cookies, UserKey) then
      match parse(s.cookies[UserKey])
      case Object(u) =>
        if u.role == AdminRole then
          Step(done.(token := Some(s.cookies[TokenKey]), user := Some(u)), None)
        else
          Step(done.(cookies := Forget(s.cookies), token := None, user := None),
               if pathname != LoginPath then Some(LoginPath) else None)
      case _ =>
        Step(done.(cookies := Forget(s.cookies)), None)
    else
      Step(done, None)
  }

  /**
   * login: a response for any other role leaves the session and the cookies
   * alone and only sets the error, unless one is already showing; an admin
   * response is kept in state and in both cookies, and the router goes home.
   */
  function Login(s: State, a: AuthResponse, stringify: User -> string): (r: Step)
    ensures a.role != AdminRole ==>
      r.state.user == s.user && r.state.token == s.token && r.state.cookies == s.cookies
      && r.state.hydrated == s.hydrated && r.redirect.None?
      && r.state.error.Some? && (s.error.Some? ==> r.state.error == s.error)
    ensures a.role == AdminRole ==>
      r.state.user == Some(UserData(a)) && r.state.token == Some(a.token) && r.state.error.None?
      && r.state.hydrated == s.hydrated && r.redirect == Some(HomePath)
      && r.state.cookies.Keys == s.cookies.Keys + {TokenKey, UserKey}
      && r.state.cookies[TokenKey] == a.token && r.state.cookies[UserKey] == stringify(UserData(a))
      && forall k :: k in s.cookies && k != TokenKey && k != UserKey ==> r.state.cookies[k] == s.cookies[k]
  {
    if a.role != AdminRole then
      Step(if s.error.None? then s.(error := Some(NotAdminError)) else s, None)
    else
      var userData := UserData(a);
      var cookies := s.cookies[TokenKey := a.token][UserKey := stringify(userData)];
      Step(s.(token := Some(a.token), user := Some(userData), error := None, cookies := cookies), Some(HomePath))
  }

  /** logout: the session and the error are cleared, both cookies removed, and the router goes to the login page. */
  function Logout(s: State): (r: Step)
    ensures r.state.user.None? && r.state.token.None? && r.state.error.None?
    ensures r.state.hydrated == s.hydrated
    ensures TokenKey !in r.state.cookies && UserKey !in r.state.cookies
    ensures forall k :: k in s.cookies && k != TokenKey && k != UserKey ==> k in r.state.cookies && r.state.cookies[k] == s.cookies[k]
    ensures r.redirect == Some(LoginPath)
  {
    Step(s.(token := None, user := None, error := None, cookies := Forget(s.cookies)), Some(LoginPath))
  }

  /** The effect runs again on every navigation; running it twice settles on the same state. */
  lemma HydrateIsIdempotent(s: State, pathname: string, pathname': string, parse: string -> Parsed)
    ensures Hydrate(Hydrate(s, pathname, parse).state, pathname', parse).state == Hydrate(s, pathname, parse).state
  {
    var once := Hydrate(s, pathname, parse).state;
    if Stored(s.cookies, TokenKey) && Stored(s.cookies, UserKey) {
      var parsed := parse(s.cookies[UserKey]);
      if !(parsed.Object? && parsed.user.role == AdminRole) {
        assert !Stored(once.cookies, TokenKey);
      }
    }
  }

  /**
   * An admin session survives a reload: after login, a fresh provider over
   * the cookies login wrote restores the same user and token, given that
   * JSON round-trips and the token is not empty.
   */
  lemma LoginSurvivesReload(s: State, a: AuthResponse, pathname: string, stringify: User -> string, parse: string -> Parsed)
    requires RoundTrips(stringify, parse)
    requires a.role == AdminRole && a.token != "" && stringify(UserData(a)) != ""
    ensures var reloaded := Hydrate(Initial(Login(s, a, stringify).state.cookies), pathname, parse);
            reloaded.state.user == Some(UserData(a)) && reloaded.state.token == Some(a.token)
            && reloaded.redirect.None?
  {
    var cookies := Login(s, a, stringify).state.cookies;
    assert Stored(cookies, TokenKey) && Stored(cookies, UserKey);
    assert parse(cookies[UserKey]) == Object(UserData(a));
  }

  /** After logout a reload restores nothing. */
  lemma ReloadAfterLogoutRestoresNothing(s: State, pathname: string, parse: string -> Parsed)
    ensures var reloaded := Hydrate(Initial(Logout(s).state.cookies), pathname, parse);
            reloaded.state.user.None? && reloaded.state.token.None? && reloaded.redirect.None?
  {
  }

  /** A stored account of another role is evicted: a second reload finds nothing. */
  lemma NonAdminCookiesAreEvicted(cookies: Store, pathname: string, parse: string -> Parsed)
    requires Stored(cookies, TokenKey) && Stored(cookies, UserKey)
    requires parse(cookies[UserKey]).Object? && parse(cookies[UserKey]).user.role != AdminRole
    ensures var first := Hydrate(Initial(cookies), pathname, parse);
            first.state.user.None? && TokenKey !in first.state.cookies && UserKey !in first.state.cookies
            && Hydrate(Initial(first.state.cookies), pathname, parse).state.user.None?
  {
  }

  /** Logging out twice is logging out once. */
  lemma LogoutIsIdempotent(s: State)
    ensures Logout(Logout(s).state) == Logout(s)
  {
    assert Forget(Forget(s.cookies)) == Forget(s.cookies);
  }

  /** The provider's unit tests: an empty jar hydrates, the sample admin login writes both cookies, logout removes them. */
  lemma AdminLoginScenario(stringify: User -> string, parse: string -> Parsed)
    ensures Hydrate(Initial(map[]), "/", parse).state.hydrated
    ensures var a := AuthResponse("1", "Admin User", "admin@test.com", "ADMIN", "fake-token", "2026-01-01", None);
            var after := Login(Hydrate(Initial(map[]), "/", parse).state, a, stringify).state;
            after.cookies[TokenKey] == "fake-token" && UserKey in after.cookies
            && after.user.Some? && after.user.value.email == "admin@test.com"
            && TokenKey !in Logout(after).state.cookies && UserKey !in Logout(after).state.cookies
  {
  }
}
