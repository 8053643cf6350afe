# Client-side session and route guarding, modelled in Dafny

This project models the session layer of a Next.js authentication front end:

- the `auth_token` cookie codec;
- the middleware that redirects requests by route class;
- the HTTP client that turns every back-end outcome into a value;
- the four-key `localStorage` session store and the login flow around it;
- the React session context;
- the component that mirrors the token into the cookie;
- the client-side route guard.

It then proves properties of these pieces: the cookie round trip, the redirect rules, the error normalisation of the client, the partial-write and clearing behaviour of the store, and the state transitions of the session.

Modules, one per source file, plus two shared ones:

| module | file | models |
|---|---|---|
| `Js` | js.dfy | JavaScript semantics the code relies on: truthiness of optional strings, `||`, `String.prototype.trim` (ECMA-262 white space and line terminators), `split`/`join` on one character, and integer-to-decimal conversion |
| `AuthTypes` | auth_types.dfy | the records of src/types/auth.ts |
| `AuthCookies` | auth_cookies.dfy | src/lib/auth-cookies.ts |
| `Middleware` | middleware.dfy | src/middleware.tsx |
| `Api` | api.dfy | src/lib/api.ts |
| `Auth` | auth_service.dfy | src/lib/auth.ts |
| `AuthContext` | auth_provider.dfy | src/components/auth/AuthProvider.tsx |
| `CookieSync` | auth_wrapper.dfy | src/components/auth/AuthWrapper.tsx |
| `RouteGuard` | protected_route.dfy | src/components/auth/ProtectedRoute.tsx |

How outside effects are represented:

- **Environment.** The `NODE_ENV === 'development'` test is the parameter `isDevelopment`. `NEXT_PUBLIC_API_URL` is the optional parameter of `Api.ApiBase`. `typeof window !== 'undefined'` is the flag `hasWindow`.
- **Fetch.** Each `fetch` is an `Api.FetchOutcome`: either a transport failure carrying what was thrown, or a response with its `ok` flag, its status and a body that parses or does not. Each wrapper is split into the call it sends (`LoginCall`, …) and the value it settles with (`Login`, …).
- **Awaited results.** The session store and the session context receive each awaited API result as a parameter of the method that awaits it. The effect that initialises the context is a single call to `AuthProvider.Initialize`.
- **JSON.** `JSON.stringify`/`JSON.parse` of a user or tenant is an identity round trip, represented by the `Auth.Item` constructors `UserJson` and `TenantJson`. A `Text` item that is not empty, stored under the user or tenant key, is text that `JSON.parse` rejects.
- **encodeURIComponent.** It is a function-typed parameter `encode`.
- **Storage quota.** Each operation that writes to `localStorage` takes an `Auth.Quota`: either unlimited, or a number of `setItem` calls the browser still accepts before the next one throws a `QuotaExceededError` with a given message. Without a window every `setItem` throws a `ReferenceError`. `Auth.Accepted` counts the writes that take effect; `Auth.Refusal` is the message of the write that throws.
- **React rendering.** The effect dependency check of the cookie mirror is the field `AuthWrapper.lastToken`. `document.cookie` assignments are the sequence `AuthWrapper.cookieWrites`.

Four facts about the code that shape the model:

- **`verifyStoredToken` clears the store only when the refreshed user cannot be written.** `ApiService.verifyToken` never throws (src/lib/api.ts:72-79). So the `catch` that calls `clearAuth` (src/lib/auth.ts:137-140) runs only when `localStorage.setItem` of the fresh user throws (line 134), for example on an exhausted quota. An answer that is not valid leaves the store as it was. The session context then clears the store, but only when both a token and a user were stored. A stored token with no stored user is neither verified nor cleared.
- **A corrupt stored user throws.** `getStoredUser` calls `JSON.parse` on the stored text, and on text that is not JSON this throws. The initialisation effect then rejects before `setLoading(false)`, so `loading` stays `true` (`AuthProvider.Initialize`, `rejected`).
- **`setAuth` and `clearAuth` can throw.** Without a window, both throw a `ReferenceError` as soon as they touch `localStorage`; `setAuth` also throws when the quota is exhausted, after the writes before the refused one have taken effect. `AuthService.login` catches the error and reports `{ success: false, error: <its message> }`, for example `"localStorage is not defined"`; the partial writes stay in the store.
- **The route classes cannot collide.** The lists make it impossible for a path to be both protected and an auth route (`ProtectedAndAuthDisjoint`), so the order of the two checks never matters (`CheckOrderIrrelevant`).

The default cookie max-age is the constant `AuthCookies.DefaultMaxAge`, written as `60 * 60 * 24 * 7`, which is 604800 seconds.

## Model

| member | source | states |
|---|---|---|
| `Js.Trim` | src/lib/auth-cookies.ts:29 | the trimmed string neither begins nor ends with white space |
| `Js.Split` | src/lib/auth-cookies.ts:28-29 | `split(sep)` gives at least one piece, and no piece holds the separator |
| `Js.TrimRemovesOnlyWhiteSpace` | src/lib/auth-cookies.ts:29 | `trim` returns a contiguous slice of its input, and everything it removes on either side is white space |
| `Js.JoinSplit` | src/lib/auth-cookies.ts:28 | joining the pieces of `split(sep)` with `sep` gives back the original string |
| `Js.SplitJoin` | src/lib/auth-cookies.ts:28 | splitting a join of separator-free pieces gives back the pieces |
| `Js.SplitCons` | src/lib/auth-cookies.ts:29 | a string is cut at its first separator: the part before it, then the pieces of the rest |
| `Js.NatToStringRoundTrip` | src/lib/auth-cookies.ts:8 | the decimal digits written for `${maxAge}` read back as the same number |
| `AuthCookies.SetAuthCookie` | src/lib/auth-cookies.ts:5-12 | the Set-Cookie string begins with `auth_token=` followed by the token |
| `AuthCookies.ClearAuthCookie` | src/lib/auth-cookies.ts:15-22 | the clearing string is the setting string for an empty token and `Max-Age=0`, with the same `Secure` policy |
| `AuthCookies.SetAuthCookieSegments` | src/lib/auth-cookies.ts:7-11 | the Set-Cookie string splits at `;` into the `auth_token=<token>` segment, then the max-age, path and attribute segments, as long as the token holds no `;` |
| `AuthCookies.SetAuthCookieParts` | src/lib/auth-cookies.ts:5-11 | the trimmed parts are `auth_token=<token>`, `Max-Age=<maxAge>`, `Path=/`, then `Secure` (outside development only), and `SameSite=Strict` last; there are four parts in development and five otherwise |
| `AuthCookies.SecureUnlessDevelopment` | src/lib/auth-cookies.ts:7-11 | `Secure` is one of the parts exactly when not in development |
| `AuthCookies.SecureInsertedBeforeSameSite` | src/lib/auth-cookies.ts:7-11 | the production string is the development string with `; Secure` inserted just before `; SameSite=Strict` |
| `AuthCookies.KeyValue` | src/lib/auth-cookies.ts:29 | `const [key, value] = part.split('=')` yields a key and a value that hold no `=` |
| `AuthCookies.ParseSegment` | src/lib/auth-cookies.ts:29 | a trimmed segment yields a key and a value that hold no `=` |
| `AuthCookies.KeyValueOfPair` | src/lib/auth-cookies.ts:29 | a part `key=value` with no other `=` reads back as that key and value |
| `AuthCookies.SecondEqualsDropped` | src/lib/auth-cookies.ts:29 | in `key=value=rest`, everything from the second `=` on is dropped |
| `AuthCookies.Entries` | src/lib/auth-cookies.ts:28-29 | one entry per `;`-separated segment of the header |
| `AuthCookies.Jar` | src/lib/auth-cookies.ts:28-34 | only entries with a non-empty key and a non-empty value are recorded |
| `AuthCookies.JarLastWins` | src/lib/auth-cookies.ts:28-34 | the value recorded for a key is the one from the last entry that records it |
| `AuthCookies.JarMissing` | src/lib/auth-cookies.ts:30-31 | a key that no entry records is absent from the dictionary |
| `AuthCookies.JarSource` | src/lib/auth-cookies.ts:28-34 | every recorded value comes from an entry that records it under that key |
| `AuthCookies.TokenFromCookies` | src/lib/auth-cookies.ts:25-36 | an empty header gives no token, and a token found is never empty |
| `AuthCookies.GetTokenFromCookies` | src/lib/auth-cookies.ts:25-37 | the loop over the segments, which updates the dictionary in place, computes `TokenFromCookies` |
| `AuthCookies.GetTokenFromBrowser` | src/lib/auth-cookies.ts:40-43 | no window gives no token; otherwise the result is the token in `document.cookie` |
| `AuthCookies.SetAuthCookieEntries` | src/lib/auth-cookies.ts:8-11 | the first entry of a Set-Cookie string is `auth_token` with the token, and no later entry has that key |
| `AuthCookies.SetThenRead` | src/lib/auth-cookies.ts:8-36 | reading back `setAuthCookie(t, m)` gives `t`, for a non-empty `t` with no `;` or `=` and no trailing white space |
| `AuthCookies.ClearThenRead` | src/lib/auth-cookies.ts:18-36 | reading back `clearAuthCookie()` gives no token |
| `AuthCookies.TokenBeforeSecondEquals` | src/lib/auth-cookies.ts:28-36 | a header `auth_token=<v>=<rest>` yields `v` |
| `AuthCookies.SecondEqualsExample` | src/lib/auth-cookies.ts:29 | `auth_token=a=b` yields `a` |
| `Middleware.SomePrefix` | src/middleware.tsx:29-36 | `.some(startsWith)` holds exactly when some listed route is a prefix of the path |
| `Middleware.SomeEqual` | src/middleware.tsx:39-41 | the public-route test holds exactly when the path is one of the listed routes |
| `Middleware.Decide` | src/middleware.tsx:20-58 | a login redirect carrying the pathname exactly when the path is protected and there is no truthy token; a dashboard redirect exactly when it is an auth route and there is a token; otherwise continue |
| `Middleware.ProtectedAndAuthDisjoint` | src/middleware.tsx:5-15 | no path is both protected and an auth route |
| `Middleware.CheckOrderIrrelevant` | src/middleware.tsx:44-55 | evaluating the auth-route rule first would give the same decision |
| `Middleware.OnlyPresenceMatters` | src/middleware.tsx:24-55 | the decision depends on whether a token is present, never on its value; an empty value is no token |
| `Middleware.PublicRoutesContinue` | src/middleware.tsx:18-58 | a public path always continues; `isPublicRoute` never changes the outcome |
| `Middleware.RawPrefixProtects` | src/middleware.tsx:9-31 | any path starting with `/admin`, such as `/adminx`, is protected and redirected to login without a token |
| `Api.ApiBase` | src/lib/api.ts:4 | the base URL is the environment value when it is truthy, else `http://localhost:8080/api/v1` |
| `Api.MergeConfig` | src/lib/api.ts:13-19 | the JSON content type is sent unless the caller supplies headers, which then replace it entirely; method and body pass through |
| `Api.Send` | src/lib/api.ts:11-21 | the URL is the base followed by the endpoint |
| `Api.LoginCall` | src/lib/api.ts:34-39 | a POST to `<base>/auth/login` with the JSON content type and the credentials as body |
| `Api.RegisterCall` | src/lib/api.ts:48-53 | a POST to `<base>/auth/register` with the JSON content type and the registration data as body |
| `Api.GetCurrentUserCall` | src/lib/api.ts:62-69 | a GET to `<base>/auth/me` without a body that sends only `Authorization: Bearer <token>`, without `Content-Type` |
| `Api.VerifyEmailCall` | src/lib/api.ts:81-85 | a GET to `<base>/auth/verify?token=` followed by the encoded token, with the JSON content type |
| `Api.ResendVerificationCall` | src/lib/api.ts:94-98 | a POST without a body to `<base>/auth/resend?email=` followed by the encoded e-mail address |
| `Api.FailureMessage` | src/lib/api.ts:23-27 | the body's `error` if truthy, else its `message` if truthy, else `Request failed`; an unparsable body gives `HTTP error! status: <status>`; never empty |
| `Api.Request` | src/lib/api.ts:21-30 | a transport failure is rethrown; a non-ok response throws an `Error` with the failure message; an ok response resolves to its parsed body, and a body that does not parse rejects with the parse error |
| `Api.CaughtMessage` | src/lib/api.ts:43 | an `Error` gives its message, anything else gives the fallback text |
| `Api.Login` | src/lib/api.ts:34-46 | resolves to the parsed body, or to `{ error }` with the caught message or `Login failed`; never throws |
| `Api.Register` | src/lib/api.ts:48-59 | resolves to the parsed body, or to `{ error }` with the caught message or `Registration failed` |
| `Api.VerifyToken` | src/lib/api.ts:72-79 | valid with the user exactly when the current-user request resolves, otherwise not valid and without a user |
| `Api.VerifyEmail` | src/lib/api.ts:81-91 | resolves to the parsed body, or to `{ error }` with the caught message or `Email verification failed` |
| `Api.ResendVerification` | src/lib/api.ts:94-104 | resolves to the parsed body, or to `{ error }` with the caught message or `Failed to resend verification email` |
| `Api.FailedLoginCarriesError` | src/lib/api.ts:23-45 | a non-ok login response always reaches the caller as a truthy `error`, with no token and no user |
| `Api.FailedRegisterCarriesError` | src/lib/api.ts:23-58 | a non-ok registration response always reaches the caller as a truthy `error` |
| `Api.OkBodyUnchanged` | src/lib/api.ts:30-36 | an ok response is returned as parsed, even when it carries an `error` field |
| `Api.NonErrorFallbacks` | src/lib/api.ts:40-103 | a thrown non-`Error` becomes each wrapper's own fallback text, and an invalid token check |
| `Auth.KeysDistinct` | src/lib/auth.ts:6-9 | the four storage keys are pairwise distinct |
| `Auth.StoredToken` | src/lib/auth.ts:12-15 | a token is returned exactly when there is a window and the key is present |
| `Auth.StoredUser` | src/lib/auth.ts:18-22 | null without a window, for a missing key or for an empty item; the user for a user's JSON; a throw for any other text |
| `Auth.StoredTenant` | src/lib/auth.ts:25-29 | the same as `StoredUser`, for the tenant key |
| `Auth.Written` | src/lib/auth.ts:32-45 | `setAuth` writes a key exactly when its field is truthy, and writes no key outside the four |
| `Auth.FieldWrite` | src/lib/auth.ts:33-44 | each `if (field) setItem(…)` makes at most one write, which puts text under a token key, a user's JSON under the user key and a tenant's JSON under the tenant key |
| `Auth.WritesFit` | src/lib/auth.ts:32-45 | every write of `setAuth` puts its kind of item under one of the four keys |
| `Auth.UpToPrefix` | src/lib/auth.ts:32-45 | the writes for the first fields are a prefix of the writes for more fields |
| `Auth.ApplyField` | src/lib/auth.ts:33-44 | handling one more field adds its write, if any, on top of the store reached so far |
| `Auth.ApplyUpTo` | src/lib/auth.ts:32-45 | making the writes for the first fields in order overlays the store with those fields' items |
| `Auth.WrittenByField` | src/lib/auth.ts:32-45 | the items of the four fields, taken one by one, are exactly the written items |
| `Auth.SetAuthOverlays` | src/lib/auth.ts:32-45 | making all the writes of `setAuth` in order leaves the old store overlaid with the written items; every other key is unchanged |
| `Auth.SetAuthComposes` | src/lib/auth.ts:32-45 | two complete `setAuth` calls accumulate: a field the second leaves out keeps what the first wrote |
| `Auth.WritesWellKept` | src/lib/auth.ts:32-45 | any run of such writes keeps text under the token keys, users under the user key and tenants under the tenant key |
| `Auth.AfterClear` | src/lib/auth.ts:48-53 | clearing removes exactly the four keys and keeps every other item |
| `Auth.ClearIdempotent` | src/lib/auth.ts:12-53 | clearing twice equals clearing once, and after clearing every getter answers null |
| `Auth.SetAuthThenToken` | src/lib/auth.ts:12-35 | after all the writes of a response with a truthy token, the store is well kept and the token getter returns that token |
| `Auth.Refusal` | src/lib/auth.ts:34-43 | without a window the thrown message is `localStorage is not defined` |
| `Auth.Accepted` | src/lib/auth.ts:32-45 | at most all the writes take effect, and when fewer do, the next one is refused |
| `Auth.Refused` | src/lib/auth.ts:32-45 | when the write for one field is the first refused, exactly the writes for the fields before it take effect, and some write is left out |
| `Auth.AllTaken` | src/lib/auth.ts:32-45 | when no write is refused, every write takes effect |
| `Auth.Register` | src/lib/auth.ts:90-121 | success exactly when the response's `error` is falsy, carrying its message; otherwise failure with its error; storage is never touched |
| `Auth.AuthService.SetItem` | src/lib/auth.ts:34-43 | a write the browser accepts stores the item under its key; a refused one throws the refusal message and changes nothing |
| `Auth.AuthService.SetField` | src/lib/auth.ts:33-44 | one field step: either its write (if any) is added to the store, or it throws and the store holds exactly the accepted prefix of all the writes |
| `Auth.AuthService.SetAuth` | src/lib/auth.ts:32-45 | the store holds exactly the accepted prefix of the writes, in order; it throws exactly when some write is refused, with the refusal message (without a window, as soon as some field is truthy) |
| `Auth.AuthService.ClearAuth` | src/lib/auth.ts:48-53 | in a browser the four keys are removed; without a window it throws |
| `Auth.AuthService.Login` | src/lib/auth.ts:56-87 | a truthy `error` fails with that error and stores nothing; otherwise success exactly when every write is accepted, with its `mustChangePassword` and data and the store overlaid with the written items; a refused write becomes a failure carrying the thrown message, and the writes before it stay |
| `Auth.AuthService.VerifyStoredToken` | src/lib/auth.ts:123-141 | without a truthy stored token: not valid, no request, store unchanged; otherwise the token is sent; a valid answer refreshes the stored user and is returned; if that write is refused, the store is cleared and the result is not valid; an answer that is not valid is returned and leaves the store as it was |
| `AuthContext.ContextRegister` | src/components/auth/AuthProvider.tsx:82-94 | the service's success and error, without the message |
| `AuthContext.UseAuth` | src/components/auth/AuthProvider.tsx:10-16 | the context, or the error `useAuth must be used within an AuthProvider` outside a provider |
| `AuthContext.AuthProvider.constructor` | src/components/auth/AuthProvider.tsx:22-25 | the session starts with no user, no token and `loading` set |
| `AuthContext.AuthProvider.Initialize` | src/components/auth/AuthProvider.tsx:27-57 | the stored token is sent exactly when it is truthy and a user is stored; then a valid answer whose user write is accepted adopts the token and the fresh user, and any other outcome clears the store and keeps the state; otherwise nothing is sent or cleared; `loading` ends false unless the stored user is corrupt |
| `AuthContext.AuthProvider.Login` | src/components/auth/AuthProvider.tsx:59-80 | success exactly when the response has no truthy `error` and every write is accepted; then the state takes `token \|\| null` and the user, the store is overlaid with the written items, and a truthy token equals the stored one; on failure the state is unchanged and an error is returned: the response's own, with the store untouched, or the thrown message, with the accepted writes in place |
| `AuthContext.AuthProvider.Logout` | src/components/auth/AuthProvider.tsx:96-101 | the store is cleared and user and token become null, so the session is no longer authenticated |
| `CookieSync.SyncCookie` | src/components/auth/AuthWrapper.tsx:15-23 | a truthy token writes `setAuthCookie(token)` with the default max-age; no token writes `clearAuthCookie()` |
| `CookieSync.SyncNamesAuthToken` | src/components/auth/AuthWrapper.tsx:15-23 | every cookie the effect writes begins with `auth_token=` |
| `CookieSync.SyncRoundTrip` | src/components/auth/AuthWrapper.tsx:15-23 | reading back the written cookie gives the session's token, or none when the session has none |
| `CookieSync.AuthWrapper.Render` | src/components/auth/AuthWrapper.tsx:11-36 | a cookie is written exactly when the token differs from the last render's; the newest write always mirrors the current token; the children are shown unchanged |
| `RouteGuard.LoginUrl` | src/components/auth/ProtectedRoute.tsx:21 | `/login` from the root, else `/login?redirect=` followed by the encoded path |
| `RouteGuard.Guard` | src/components/auth/ProtectedRoute.tsx:17-38 | children exactly when not loading and authenticated; a redirect exactly when not loading and not authenticated; while loading, the fallback or the spinner |
| `RouteGuard.RedirectsToLogin` | src/components/auth/ProtectedRoute.tsx:20-22 | every redirect goes to `/login`, and from any path but the root it carries the encoded path after `?redirect=` |

## Left out

- The `matcher` pattern of the middleware (src/middleware.tsx:62-74) is not modelled. It is framework configuration.
- WHATWG URL and `searchParams` serialisation of the login redirect is not modelled. `Middleware.Decide` returns the raw pathname that becomes the `redirect` parameter.
- How Next.js parses the request's `cookies` is not modelled. The middleware receives the `auth_token` value as an optional string.
- Browser cookie-jar behaviour (expiry by `Max-Age`, the merging of several `document.cookie` writes) is not modelled. The wrapper records the strings it assigns.
- `encodeURIComponent` is an uninterpreted parameter.
- Real `fetch`, `response.json()` and JSON text are not modelled. A body that parses is given directly as its fields.
- Non-string `error` or `message` fields, a `null` JSON body and a `__proto__` cookie key behave specially in JavaScript. The model does not represent them.
- `console.log` calls are left out.
- React scheduling, unmounting and interleaving of asynchronous handlers are left out. Each awaited result is a method parameter, and the second effect of the wrapper, which builds a closure it never uses, has no counterpart.
- Presentation is left out: JSX markup, the login and registration pages, `src/app/page.tsx` and `next.config.ts`.
- `AuthContext.AuthProvider.IsAuthenticated` has no separate contract. It is the expression `user.Some? && Truthy(token)`, and `Logout` states its value.
- `Auth.StoredToken` and the other getters require `WellKept`: the token keys hold text, the user key never holds a tenant's JSON, and the tenant key never holds a user's JSON. What another script could write there is not modelled.
- A `SecurityError` from a browser that blocks `localStorage` altogether is not modelled: in the model, reading and removing items never throw, and only `setItem` can be refused.
- The storage quota is a count of the `setItem` calls one operation may still make, not a size in bytes; which write a real browser refuses depends on item sizes that the model does not track.
- `Js.IntToString` covers integral numbers only: `${maxAge}` for a fractional number, for `NaN` or the infinities, or for a magnitude of at least 10^21 (written in exponent form) is not modelled. The code only passes the default max-age 604800, the value 0 and integral numbers.
