/** The session context (src/components/auth/AuthProvider.tsx): the React
    state `user`, `token` and `loading`, changed by initialisation, login and
    logout. Each awaited result is passed to the method that awaits it; the
    effect that initialises the session is one call to `Initialize`. */
module AuthContext {
  import opened Js
  import opened AuthTypes
  import opened Auth

  /** What the context's `login` resolves to. */
  datatype LoginOutcome = LoginOutcome(success: bool, error: Option<string>, mustChangePassword: Option<bool>)

  /** What the context's `register` resolves to: the service's answer
      without its message. */
  datatype RegisterOutcome = RegisterOutcome(success: bool, error: Option<string>)

  /** The context's `register`, given what `ApiService.register` returned; it
      changes neither `user` nor `token`. */
  function ContextRegister(response: RegistrationResponse): (r: RegisterOutcome)
    ensures r.success <==> !Truthy(response.error)
    ensures r.error == (if Truthy(response.error) then response.error else None)
  {
    var result := Register(response);
    RegisterOutcome(result.success, result.error)
  }

  const OutsideProvider := "useAuth must be used within an AuthProvider"

  /** `useAuth()`: the context value, or an error outside a provider. */
  function UseAuth<T>(context: Option<T>): (r: Result<T>)
    ensures context.Some? ==> r == Ok(context.value)
    ensures context.None? ==> r == Thrown(OutsideProvider)
  {
    if context.None? then Thrown(OutsideProvider) else Ok(context.value)
  }

  class AuthProvider {
    const service: AuthService
    var user: Option<User>
    var token: Option<string>
    var loading: bool

    ghost predicate Valid()
      reads this, service
    {
      service.Valid()
    }

    /** The state before the first effect runs. */
    constructor(service: AuthService)
      requires service.Valid()
      ensures this.service == service && Valid()
      ensures user == None && token == None && loading
    {
      this.service := service;
      user := None;
      token := None;
      loading := true;
    }

    /** `isAuthenticated`: `!!user && !!token`. */
    predicate IsAuthenticated()
      reads this
    {
      user.Some? && Truthy(token)
    }

    /** `initializeAuth()`, given the answer the token check would get and
        the room left in the browser's storage. With a stored token and user
        the token is sent for checking: a valid answer adopts the stored
        token and the fresh user, any other clears the store, as does a
        refused write of the fresh user. A stored user that is not JSON
        makes the effect throw before `loading` is turned off. */
    method Initialize(answer: Verification, quota: Quota) returns (rejected: bool, sent: Option<string>)
      requires Valid()
      modifies this, service
      ensures Valid()
      ensures var storedUser := StoredUser(service.hasWindow, old(service.storage));
        rejected <==> storedUser.Corrupt?
      ensures rejected ==> unchanged(this) && service.storage == old(service.storage) && sent == None
      ensures !rejected ==> !loading
      ensures var storedToken := StoredToken(service.hasWindow, old(service.storage));
        var storedUser := StoredUser(service.hasWindow, old(service.storage));
        && sent == (if Truthy(storedToken) && storedUser.Found? then storedToken else None)
        && (!(Truthy(storedToken) && storedUser.Found?) ==>
              user == old(user) && token == old(token) && service.storage == old(service.storage))
        && (Truthy(storedToken) && storedUser.Found? && answer.valid && answer.user.Some? && Takes(service.hasWindow, quota, 0) ==>
              token == storedToken && user == answer.user
              && service.storage == old(service.storage)[UserKey := UserJson(answer.user.value)])
        && (Truthy(storedToken) && storedUser.Found? && !(answer.valid && answer.user.Some? && Takes(service.hasWindow, quota, 0)) ==>
              user == old(user) && token == old(token) && service.storage == AfterClear(old(service.storage)))
    {
      var storedToken := StoredToken(service.hasWindow, service.storage);
      var storedUser := StoredUser(service.hasWindow, service.storage);
      if storedUser.Corrupt? {
        return true, None;
      }
      sent := None;
      if Truthy(storedToken) && storedUser.Found? {
        ClearIdempotent(service.storage);
        var result;
        result, sent := service.VerifyStoredToken(answer, quota);
        if result.valid && result.user.Some? {
          token := storedToken;
          user := result.user;
        } else {
          var threw := service.ClearAuth();
        }
      }
      loading := false;
      rejected := false;
    }

    /** The context's `login`, given what `ApiService.login` returned and the
        room left in the browser's storage: on success the state takes the
        response's token (an empty one becomes `null`) and user, and the
        store holds every field; on failure the state is unchanged. */
    method Login(response: LoginResponse, quota: Quota) returns (outcome: LoginOutcome)
      requires Valid()
      modifies this, service
      ensures Valid()
      ensures loading == old(loading)
      ensures outcome.success <==>
        !Truthy(response.error) && Accepted(service.hasWindow, quota, |Writes(response)|) == |Writes(response)|
      ensures outcome.success ==>
        && outcome == LoginOutcome(true, None, response.mustChangePassword)
        && token == OrNull(response.token) && user == response.user
        && service.storage == old(service.storage) + Written(response)
      ensures outcome.success && Truthy(response.token) ==> token == StoredToken(service.hasWindow, service.storage)
      ensures !outcome.success ==> outcome.error.Some? && user == old(user) && token == old(token)
      ensures Truthy(response.error) ==> outcome.error == response.error && service.storage == old(service.storage)
      ensures !outcome.success && !Truthy(response.error) ==>
        var n := Accepted(service.hasWindow, quota, |Writes(response)|);
        outcome.error == Some(Refusal(service.hasWindow, quota))
        && service.storage == Apply(old(service.storage), Writes(response)[..n])
    {
      var result := service.Login(response, quota);
      if result.success && result.data.Some? {
        token := OrNull(result.data.value.token);
        user := result.data.value.user;
        if Truthy(response.token) {
          assert |WritesUpTo(response, 1)| == 1;
          UpToPrefix(response, 1, 4);
          SetAuthThenToken(old(service.storage), response);
          SetAuthOverlays(old(service.storage), response);
        }
        return LoginOutcome(true, None, result.mustChangePassword);
      }
      outcome := LoginOutcome(false, result.error, None);
    }

    /** `logout()`: clears the store, then forgets the user and the token.
        Without a window clearing throws and nothing changes. */
    method Logout() returns (threw: bool)
      requires Valid()
      modifies this, service
      ensures Valid()
      ensures threw <==> !service.hasWindow
      ensures threw ==> unchanged(this) && service.storage == old(service.storage)
      ensures !threw ==>
        && user == None && token == None && !IsAuthenticated() && loading == old(loading)
        && service.storage == AfterClear(old(service.storage))
    {
      threw := service.ClearAuth();
      if threw {
        return;
      }
      user := None;
      token := None;
    }
  }
}
