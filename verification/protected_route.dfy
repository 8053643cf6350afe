/** The client-side route guard (src/components/auth/ProtectedRoute.tsx):
    what it renders and where it sends the browser, from the session's
    `loading` and `isAuthenticated`. */
module RouteGuard {
  import opened Js

  /** What the guard renders: the caller's fallback, the built-in spinner,
      nothing, or the protected children. */
  datatype Rendered = Fallback | Spinner | Nothing | Children

  /** The rendered branch, and the URL pushed by the effect, if any. */
  datatype GuardView = GuardView(rendered: Rendered, redirect: Option<string>)

  /** The login URL for the current path; `encode` stands for
      `encodeURIComponent`. */
  function LoginUrl(currentPath: string, encode: string -> string): (url: string)
    ensures currentPath == "/" ==> url == "/login"
    ensures currentPath != "/" ==> url == "/login?redirect=" + encode(currentPath)
  {
    "/login" + (if currentPath != "/" then "?redirect=" + encode(currentPath) else "")
  }

  /** One render of `ProtectedRoute`. `hasFallback` says whether the
      `fallback` prop is truthy. */
  function Guard(loading: bool, isAuthenticated: bool, currentPath: string, hasFallback: bool, encode: string -> string): (v: GuardView)
    ensures v.rendered == Children <==> !loading && isAuthenticated
    ensures v.redirect.Some? <==> !loading && !isAuthenticated
    ensures v.redirect.Some? ==> v.redirect.value == LoginUrl(currentPath, encode)
    ensures loading ==> v.rendered == (if hasFallback then Fallback else Spinner)
    ensures !loading && !isAuthenticated ==> v.rendered == (if hasFallback then Fallback else Nothing)
  {
    var redirect := if !loading && !isAuthenticated then Some(LoginUrl(currentPath, encode)) else None;
    if loading then GuardView(if hasFallback then Fallback else Spinner, redirect)
    else if !isAuthenticated then GuardView(if hasFallback then Fallback else Nothing, redirect)
    else GuardView(Children, redirect)
  }

  /** Every redirect goes to the login page, and from any path other than
      the root it carries that path, encoded, as `redirect`. */
  lemma RedirectsToLogin(loading: bool, isAuthenticated: bool, currentPath: string, hasFallback: bool, encode: string -> string)
    ensures var v := Guard(loading, isAuthenticated, currentPath, hasFallback, encode);
      v.redirect.Some? ==> "/login" <= v.redirect.value
    ensures var v := Guard(loading, isAuthenticated, currentPath, hasFallback, encode);
      v.redirect.Some? && currentPath != "/" ==>
        var prefix := "/login?redirect=";
        prefix <= v.redirect.value && v.redirect.value[|prefix|..] == encode(currentPath)
  {
    var url := LoginUrl(currentPath, encode);
    if currentPath != "/" {
      assert url == "/login" + "?redirect=" + encode(currentPath);
      assert "/login?redirect=" == "/login" + "?redirect=";
    }
  }
}
