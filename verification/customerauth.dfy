/**
 * The storefront's authentication context: the user and the token, kept in
 * state and mirrored in localStorage. Unlike the admin context it accepts
 * every role and does not guard the parse of the stored user.
 */
module CustomerAuth {
  import opened Wrappers
  import opened Session

  datatype State = State(user: Option<User>, token: Option<string>, hydrated: bool, storage: Store)

  /**
   * The outcome of the mount effect. `JSON.parse` is not guarded, so a
   * stored user that does not parse throws out of the effect and the
   * provider never becomes hydrated.
   */
  datatype Mount = Mounted(state: State) | Crashed

  function Initial(storage: Store): State {
    State(None, None, false, storage)
  }

  /**
   * The mount effect: with both entries set, the token is taken as stored
   * and the user is whatever the stored text parses to (`null` included);
   * otherwise nothing is restored. Storage is never written here.
   */
  function Hydrate(s: State, parse: string -> Parsed): (r: Mount)
    ensures r.Crashed? <==> Stored(s.storage, TokenKey) && Stored(s.storage, UserKey) && parse(s.storage[UserKey]).Malformed?
    ensures r.Mounted? ==> r.state.hydrated && r.state.storage == s.storage
    ensures r.Mounted? && !(Stored(s.storage, TokenKey) && Stored(s.storage, UserKey)) ==>
      r.state.user == s.user && r.state.token == s.token
    ensures r.Mounted? && Stored(s.storage, TokenKey) && Stored(s.storage, UserKey) ==>
      r.state.token == Some(s.storage[TokenKey])
      && (r.state.user.Some? <==> parse(s.storage[UserKey]).Object?)
      && (r.state.user.Some? ==> r.state.user.value == parse(s.storage[UserKey]).user)
  {
    if Stored(s.storage, TokenKey) && Stored(s.storage, UserKey) then
      match parse(s.storage[UserKey])
      case Malformed => Crashed
      case JsonNull => Mounted(s.(token := Some(s.storage[TokenKey]), user := None, hydrated := true))
      case Object(u) => Mounted(s.(token := Some(s.storage[TokenKey]), user := Some(u), hydrated := true))
    else
      Mounted(s.(hydrated := true))
  }

  /** login: the token and the rest of the response go to state and to both entries; every role is accepted. */
  function Login(s: State, a: AuthResponse, stringify: User -> string): (r: State)
    ensures r.token == Some(a.token) && r.user == Some(UserData(a)) && r.hydrated == s.hydrated
    ensures r.storage.Keys == s.storage.Keys + {TokenKey, UserKey}
    ensures r.storage[TokenKey] == a.token && r.storage[UserKey] == stringify(UserData(a))
    ensures forall k :: k in s.storage && k != TokenKey && k != UserKey ==> r.storage[k] == s.storage[k]
  {
    s.(token := Some(a.token), user := Some(UserData(a)),
       storage := s.storage[TokenKey := a.token][UserKey := stringify(UserData(a))])
  }

  /** logout: both cleared in state and in storage. */
  function Logout(s: State): (r: State)
    ensures r.user.None? && r.token.None? && r.hydrated == s.hydrated
    ensures TokenKey !in r.storage && UserKey !in r.storage
    ensures forall k :: k in s.storage && k != TokenKey && k != UserKey ==> k in r.storage && r.storage[k] == s.storage[k]
  {
    s.(token := None, user := None, storage := Forget(s.storage))
  }

  /** Logging out twice is logging out once. */
  lemma LogoutIsIdempotent(s: State)
    ensures Logout(Logout(s)) == Logout(s)
  {
    assert Forget(Forget(s.storage)) == Forget(s.storage);
  }

  /** A session survives a reload when JSON round-trips and the token is not empty. */
  lemma LoginSurvivesReload(s: State, a: AuthResponse, stringify: User -> string, parse: string -> Parsed)
    requires RoundTrips(stringify, parse)
    requires a.token != "" && stringify(UserData(a)) != ""
    ensures var reloaded := Hydrate(Initial(Login(s, a, stringify).storage), parse);
            reloaded.Mounted? && reloaded.state.user == Some(UserData(a)) && reloaded.state.token == Some(a.token)
  {
    var storage := Login(s, a, stringify).storage;
    assert Stored(storage, TokenKey) && Stored(storage, UserKey);
    assert parse(storage[UserKey]) == Object(UserData(a));
  }

  /** After logout a reload restores nothing. */
  lemma ReloadAfterLogoutRestoresNothing(s: State, parse: string -> Parsed)
    ensures var reloaded := Hydrate(Initial(Logout(s).storage), parse);
            reloaded.Mounted? && reloaded.state.user.None? && reloaded.state.token.None?
  {
  }

  /** A token with a stored user of `null` mounts with a token but no user. */
  lemma NullUserKeepsToken(storage: Store, parse: string -> Parsed)
    requires Stored(storage, TokenKey) && Stored(storage, UserKey) && parse(storage[UserKey]).JsonNull?
    ensures var r := Hydrate(Initial(storage), parse);
            r.Mounted? && r.state.token.Some? && r.state.user.None?
  {
  }

  /** The provider's unit tests: mounting over empty storage hydrates; the sample login is kept; logout clears. */
  lemma CustomerLoginScenario(stringify: User -> string, parse: string -> Parsed)
    ensures Hydrate(Initial(map[]), parse) == Mounted(Initial(map[]).(hydrated := true))
    ensures var a := AuthResponse("1", "Test User", "test@test.com", "Customer", "jwt-token", "2026-01-01", None);
            var after := Login(Initial(map[]).(hydrated := true), a, stringify);
            after.token == Some("jwt-token") && after.user.Some? && after.user.value.email == "test@test.com"
            && Logout(after).token.None? && Logout(after).user.None?
  {
  }
}
