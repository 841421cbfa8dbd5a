/**
 * The authentication slice of the store (src/features/auth/authSlice.ts): the
 * session's access token, refresh token, user and authenticated flag, and the
 * three reducers that assign them in place. The browser storage the slice
 * reads at start-up is a constructor parameter; its writes are not modelled.
 */
module AuthSlice {

  import opened Types

  /** The four fields of the slice at one moment. */
  datatype AuthState = AuthState(
    token: Option<string>,
    refreshToken: Option<string>,
    user: Option<User>,
    isAuthenticated: bool)

  /** The slice's invariant: a session that counts as authenticated has a token. */
  predicate Consistent(s: AuthState) {
    s.isAuthenticated ==> s.token.Some?
  }

  /** `!!x` for a value read from storage: present and not the empty string. */
  predicate Truthy(x: Option<string>) {
    x.Some? && x.value != ""
  }

  /** The state after sign-out. */
  const SignedOut := AuthState(None, None, None, false)

  class AuthStore {
    var token: Option<string>
    var refreshToken: Option<string>
    var user: Option<User>
    var isAuthenticated: bool

    function State(): AuthState
      reads this
    {
      AuthState(token, refreshToken, user, isAuthenticated)
    }

    predicate Valid()
      reads this
    {
      Consistent(State())
    }

    /**
     * The initial state from the stored tokens: authenticated exactly when a
     * non-empty access token was stored, and no user yet.
     */
    constructor (storedToken: Option<string>, storedRefreshToken: Option<string>)
      ensures Valid()
      ensures token == storedToken && refreshToken == storedRefreshToken && user.None?
      ensures isAuthenticated <==> Truthy(storedToken)
    {
      token := storedToken;
      refreshToken := storedRefreshToken;
      user := None;
      isAuthenticated := Truthy(storedToken);
    }

    /** Stores a fresh token pair and marks the session authenticated; the user is replaced only when one is given. */
    method SetCredentials(accessToken: string, newRefreshToken: string, payloadUser: Option<User>)
      modifies this
      ensures Valid()
      ensures token == Some(accessToken) && refreshToken == Some(newRefreshToken) && isAuthenticated
      ensures user == if payloadUser.Some? then payloadUser else old(user)
    {
      token := Some(accessToken);
      refreshToken := Some(newRefreshToken);
      isAuthenticated := true;
      if payloadUser.Some? {
        user := payloadUser;
      }
    }

    /** Replaces the user and nothing else. */
    method SetUser(newUser: User)
      modifies this`user
      ensures user == Some(newUser)
      ensures token == old(token) && refreshToken == old(refreshToken) && isAuthenticated == old(isAuthenticated)
      ensures Valid() == old(Valid())
    {
      user := Some(newUser);
    }

    /** Clears the session, whatever it was. */
    method Logout()
      modifies this
      ensures State() == SignedOut
      ensures Valid()
    {
      token := None;
      refreshToken := None;
      user := None;
      isAuthenticated := false;
    }
  }

  /** Two sign-outs in a row end signed out; the second leaves the state the first produced. */
  method LogoutTwice(store: AuthStore)
    modifies store
    ensures store.State() == SignedOut
  {
    store.Logout();
    var once := store.State();
    store.Logout();
    assert store.State() == once;
  }

  /** A session from start-up through sign-in to sign-out ends signed out, with the invariant checked after each step. */
  method SignInAndOut(stored: Option<string>, user: User) returns (store: AuthStore)
    ensures store.Valid() && store.State() == SignedOut
  {
    store := new AuthStore(stored, None);
    store.SetUser(user);
    assert store.Valid();
    store.SetCredentials("access", "refresh", None);
    assert store.Valid() && store.token == Some("access") && store.user == Some(user);
    store.SetUser(user);
    assert store.Valid() && store.isAuthenticated;
    store.Logout();
  }
}
