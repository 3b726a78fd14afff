/** The mobile app's session state: whether a user is signed in, which
    user, and whether the start-up status check is still running.  The
    token passed to `login` is not kept anywhere. */
module AuthContext {
  import opened Common
  import opened Database

  class AuthProvider {
    var isAuthenticated: bool
    var user: Option<PublicUser>
    var isLoading: bool

    /** Signed in exactly when a user is held. */
    ghost predicate Valid()
      reads this
    {
      isAuthenticated <==> user.Some?
    }

    /** The initial state: signed out and still loading. */
    constructor ()
      ensures Valid()
      ensures !isAuthenticated && user.None? && isLoading
    {
      isAuthenticated, user, isLoading := false, None, true;
    }

    /** The start-up check, once its delay has passed: signed out and no
        longer loading. */
    method CheckAuthStatus()
      modifies this
      ensures Valid()
      ensures !isAuthenticated && user.None? && !isLoading
    {
      isAuthenticated := false;
      user := None;
      isLoading := false;
    }

    /** `login(token, userData)`: signed in as that user; the loading flag
        is left as it was. */
    method Login(token: string, userData: PublicUser)
      modifies this`isAuthenticated, this`user
      ensures Valid()
      ensures isAuthenticated && user == Some(userData)
    {
      isAuthenticated := true;
      user := Some(userData);
    }

    /** `logout()`: signed out; the loading flag is left as it was. */
    method Logout()
      modifies this`isAuthenticated, this`user
      ensures Valid()
      ensures !isAuthenticated && user.None?
    {
      isAuthenticated := false;
      user := None;
    }
  }

  /** `useAuth()`: the provider's value, or the error thrown outside one. */
  function UseAuth(ctx: Option<AuthProvider>): (r: Result<AuthProvider, string>)
    ensures r.Failure? <==> ctx.None?
    ensures r.Failure? ==> r.error == "useAuth must be used within an AuthProvider"
    ensures r.Success? ==> r.value == ctx.value
  {
    if ctx.None? then Failure("useAuth must be used within an AuthProvider") else Success(ctx.value)
  }

  /** A session: start-up check, login, logout.  Whatever the order, the
      provider keeps a user exactly while signed in. */
  method SessionScenario(someone: PublicUser)
  {
    var provider := new AuthProvider();
    provider.CheckAuthStatus();
    provider.Login("token", someone);
    assert provider.Valid() && !provider.isLoading && provider.user == Some(someone);
    provider.Logout();
    assert provider.Valid() && provider.user.None?;
    var found := UseAuth(Some(provider));
    assert found.Success?;
  }
}
