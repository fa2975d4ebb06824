/**
 * What the two front ends keep about a signed-in user, and the browser
 * key-value stores (cookies, localStorage) they keep it in. JSON is left
 * abstract: a pair of functions that are only assumed to round-trip.
 */
module Session {
  import opened Wrappers

  /** The login response of the back end. */
  datatype AuthResponse = AuthResponse(
    userId: string, fullName: string, email: string, role: string,
    token: string, expiresAt: string, refreshToken: Option<string>)

  /** The response without its token: what is kept as "the user". */
  datatype User = User(
    userId: string, fullName: string, email: string, role: string,
    expiresAt: string, refreshToken: Option<string>)

  /** `const { token, ...userData } = authData`. */
  function UserData(a: AuthResponse): User {
    User(a.userId, a.fullName, a.email, a.role, a.expiresAt, a.refreshToken)
  }

  /** What `JSON.parse` makes of a stored string: it throws, yields `null`, or yields an object. */
  datatype Parsed = Malformed | JsonNull | Object(user: User)

  /** `JSON.parse(JSON.stringify(u))` gives `u` back. */
  ghost predicate RoundTrips(stringify: User -> string, parse: string -> Parsed) {
    forall u :: parse(stringify(u)) == Object(u)
  }

  type Store = map<string, string>

  const TokenKey := "token"
  const UserKey := "user"

  /** A read of `key` that JavaScript treats as true: present and not the empty string. */
  predicate Stored(store: Store, key: string) {
    key in store && store[key] != ""
  }

  /** Both entries removed, every other entry kept. */
  function Forget(store: Store): (r: Store)
    ensures TokenKey !in r && UserKey !in r
    ensures forall k :: k in store && k != TokenKey && k != UserKey ==> k in r && r[k] == store[k]
    ensures forall k :: k in r ==> k in store
  {
    store - {TokenKey, UserKey}
  }
}
