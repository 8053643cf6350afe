/** The component that mirrors the session token into the `auth_token`
    cookie the middleware reads (src/components/auth/AuthWrapper.tsx). */
module CookieSync {
  import opened Js
  import opened AuthCookies

  /** The value the sync effect assigns to `document.cookie`. */
  function SyncCookie(token: Option<string>, isDevelopment: bool): (cookie: string)
    ensures Truthy(token) ==> cookie == SetAuthCookie(token.value, DefaultMaxAge, isDevelopment)
    ensures !Truthy(token) ==> cookie == ClearAuthCookie(isDevelopment)
  {
    if Truthy(token) then SetAuthCookie(token.value, DefaultMaxAge, isDevelopment) else ClearAuthCookie(isDevelopment)
  }

  /** Every string the effect writes sets the `auth_token` cookie. */
  lemma SyncNamesAuthToken(token: Option<string>, isDevelopment: bool)
    ensures "auth_token=" <= SyncCookie(token, isDevelopment)
  {
    var t := if Truthy(token) then token.value else "";
    assert ("auth_token=" + t)[..|"auth_token="|] == "auth_token=";
  }

  /** Reading the mirrored cookie back gives the session token, or no token
      when the session has none. */
  lemma SyncRoundTrip(token: Option<string>, isDevelopment: bool)
    requires Truthy(token) ==> WellFormedToken(token.value)
    ensures TokenFromCookies(SyncCookie(token, isDevelopment)) == OrNull(token)
  {
    if Truthy(token) {
      SetThenRead(token.value, DefaultMaxAge, isDevelopment);
    } else {
      ClearThenRead(isDevelopment);
    }
  }

  class AuthWrapper {
    /** `process.env.NODE_ENV === 'development'`. */
    const isDevelopment: bool
    /** The strings assigned to `document.cookie`, oldest first. */
    var cookieWrites: seq<string>
    /** The `token` dependency the sync effect last ran with; `None` before
        the first render. */
    var lastToken: Option<Option<string>>

    /** The newest cookie write mirrors the token of the last render. */
    ghost predicate Valid()
      reads this
    {
      lastToken.Some? ==> cookieWrites != [] && cookieWrites[|cookieWrites| - 1] == SyncCookie(lastToken.value, isDevelopment)
    }

    constructor(isDevelopment: bool)
      ensures this.isDevelopment == isDevelopment && cookieWrites == [] && lastToken == None && Valid()
    {
      this.isDevelopment := isDevelopment;
      cookieWrites := [];
      lastToken := None;
    }

    /** One render with the context's current `token`: the sync effect runs
        on the first render and whenever `token` differs from the last one,
        and the children are shown unchanged. The second effect only builds
        a closure it never uses, so it changes nothing. */
    method Render<C>(token: Option<string>, children: C) returns (shown: C)
      requires Valid()
      modifies this
      ensures Valid() && shown == children && lastToken == Some(token)
      ensures cookieWrites == old(cookieWrites) + (if old(lastToken) != Some(token) then [SyncCookie(token, isDevelopment)] else [])
    {
      if lastToken != Some(token) {
        var cookie := SyncCookie(token, isDevelopment);
        cookieWrites := cookieWrites + [cookie];
      }
      lastToken := Some(token);
      shown := children;
    }
  }
}
