/** The HTTP client for the authentication back end (src/lib/api.ts). The
    network is not modelled: each `fetch` is an outcome value passed in, and
    each wrapper is split into the call it sends and the value it settles
    with once the outcome is known. */
module Api {
  import opened Js
  import opened AuthTypes

  /** The base URL used when `NEXT_PUBLIC_API_URL` is unset or empty. */
  const DefaultApiBase := "http://localhost:8080/api/v1"

  /** `process.env.NEXT_PUBLIC_API_URL || 'http://localhost:8080/api/v1'`. */
  function ApiBase(env: Option<string>): (base: string)
    ensures Truthy(env) ==> base == env.value
    ensures !Truthy(env) ==> base == DefaultApiBase
    ensures base != ""
  {
    Or(env, Some(DefaultApiBase)).value
  }

  // ---------------------------------------------------------------------------
  // What is sent

  datatype HttpMethod = Get | Post

  /** The JSON text of a request body (`JSON.stringify` of one of these). */
  datatype Payload = Credentials(credentials: LoginRequest) | Registration(userData: RegisterRequest)

  type Headers = map<string, string>

  /** The `RequestInit` a wrapper passes to `request`; `headers` is absent
      unless the wrapper supplies its own. */
  datatype Options = Options(verb: HttpMethod, headers: Option<Headers>, body: Option<Payload>)

  /** The `RequestInit` handed to `fetch`. */
  datatype Config = Config(verb: HttpMethod, headers: Headers, body: Option<Payload>)

  datatype Call = Call(url: string, config: Config)

  const JsonHeaders: Headers := map["Content-Type" := "application/json"]

  /** `{ headers: { 'Content-Type': 'application/json', ...options.headers }, ...options }`:
      because `...options` comes last, headers supplied by the caller replace
      the merged object as a whole, `Content-Type` included. */
  function MergeConfig(options: Options): (config: Config)
    ensures config.verb == options.verb && config.body == options.body
    ensures options.headers.None? ==> config.headers == JsonHeaders
    ensures options.headers.Some? ==> config.headers == options.headers.value
  {
    var merged := JsonHeaders + (if options.headers.Some? then options.headers.value else map[]);
    var spread := Config(options.verb, merged, options.body);
    if options.headers.Some? then spread.(headers := options.headers.value) else spread
  }

  /** The call `request(endpoint, options)` makes: `API_BASE + endpoint`. */
  function Send(base: string, endpoint: string, options: Options): (c: Call)
    ensures c.url == base + endpoint && c.config == MergeConfig(options)
  {
    Call(base + endpoint, MergeConfig(options))
  }

  /** `login(credentials)`: a POST of the credentials as JSON. */
  function LoginCall(base: string, credentials: LoginRequest): (c: Call)
    ensures c.url == base + "/auth/login" && c.config == Config(Post, JsonHeaders, Some(Credentials(credentials)))
  {
    Send(base, "/auth/login", Options(Post, None, Some(Credentials(credentials))))
  }

  /** `register(userData)`: a POST of the registration data as JSON. */
  function RegisterCall(base: string, userData: RegisterRequest): (c: Call)
    ensures c.url == base + "/auth/register" && c.config == Config(Post, JsonHeaders, Some(Registration(userData)))
  {
    Send(base, "/auth/register", Options(Post, None, Some(Registration(userData))))
  }

  /** `getCurrentUser(token)`: its own `headers` replace the JSON content
      type, so only the bearer token is sent. */
  function GetCurrentUserCall(base: string, token: string): (c: Call)
    ensures c.url == base + "/auth/me" && c.config.verb == Get && c.config.body == None
    ensures "Content-Type" !in c.config.headers && c.config.headers == map["Authorization" := "Bearer " + token]
  {
    assert "Content-Type" != "Authorization";
    Send(base, "/auth/me", Options(Get, Some(map["Authorization" := "Bearer " + token]), None))
  }

  /** `verifyEmail(token)`; `encode` stands for `encodeURIComponent`. */
  function VerifyEmailCall(base: string, token: string, encode: string -> string): (c: Call)
    ensures c.url == base + "/auth/verify?token=" + encode(token) && c.config == Config(Get, JsonHeaders, None)
  {
    Send(base, "/auth/verify?token=" + encode(token), Options(Get, None, None))
  }

  /** `resendVerification(email)`: a POST without a body. */
  function ResendVerificationCall(base: string, email: string, encode: string -> string): (c: Call)
    ensures c.url == base + "/auth/resend?email=" + encode(email) && c.config == Config(Post, JsonHeaders, None)
  {
    Send(base, "/auth/resend?email=" + encode(email), Options(Post, None, None))
  }

  // ---------------------------------------------------------------------------
  // What comes back

  /** What a rejected promise carries: an `Error` with its message, or some
      other value. */
  datatype Rejection = ErrorObject(message: string) | NonError

  /** `response.json()`: a `SyntaxError` when the body is not JSON, otherwise
      the parsed value together with its `error` and `message` fields, as
      `request` reads them off the parsed object. For a login or
      registration body they are the properties of the same names that
      `value` carries. They are kept apart because `request` reads them from
      the body of a failed response whatever type it was declared with, and
      no property here depends on the two agreeing. */
  datatype Json<T> = Unparsable(syntaxError: string) | Parsed(value: T, error: Option<string>, message: Option<string>)

  /** The outcome of `fetch`: a rejection (network failure), or a response. */
  datatype FetchOutcome<T> = TransportFailure(thrown: Rejection) | Answered(ok: bool, status: int, json: Json<T>)

  /** How the promise of `request` settles. */
  datatype Settled<T> = Resolved(value: T) | Rejected(thrown: Rejection)

  /** The message of the `Error` thrown for a non-ok response: the body's
      `error`, else its `message`, else `Request failed`; a body that is not
      JSON is replaced by `{ error: 'HTTP error! status: ' + status }`. */
  function FailureMessage<T>(status: int, json: Json<T>): (m: string)
    ensures m != ""
    ensures json.Parsed? && Truthy(json.error) ==> m == json.error.value
    ensures json.Parsed? && !Truthy(json.error) && Truthy(json.message) ==> m == json.message.value
    ensures json.Parsed? && !Truthy(json.error) && !Truthy(json.message) ==> m == "Request failed"
    ensures json.Unparsable? ==> m == "HTTP error! status: " + IntToString(status)
  {
    var fields := match json
      case Unparsable(_) => (Some("HTTP error! status: " + IntToString(status)), None)
      case Parsed(_, error, message) => (error, message);
    Or(Or(fields.0, fields.1), Some("Request failed")).value
  }

  /** `request<T>(endpoint, options)` once `fetch` has its outcome. */
  function Request<T>(outcome: FetchOutcome<T>): (r: Settled<T>)
    ensures outcome.TransportFailure? ==> r == Rejected(outcome.thrown)
    ensures outcome.Answered? && !outcome.ok ==> r == Rejected(ErrorObject(FailureMessage(outcome.status, outcome.json)))
    ensures outcome.Answered? && outcome.ok && outcome.json.Unparsable? ==> r == Rejected(ErrorObject(outcome.json.syntaxError))
    ensures r.Resolved? <==> outcome.Answered? && outcome.ok && outcome.json.Parsed?
    ensures r.Resolved? ==> r.value == outcome.json.value
  {
    match outcome
    case TransportFailure(thrown) => Rejected(thrown)
    case Answered(ok, status, json) =>
      if !ok then Rejected(ErrorObject(FailureMessage(status, json)))
      else match json
        case Unparsable(syntaxError) => Rejected(ErrorObject(syntaxError))
        case Parsed(value, _, _) => Resolved(value)
  }

  /** `error instanceof Error ? error.message : fallback`. */
  function CaughtMessage(thrown: Rejection, fallback: string): (m: string)
    ensures thrown.ErrorObject? ==> m == thrown.message
    ensures thrown.NonError? ==> m == fallback
  {
    match thrown
    case ErrorObject(message) => message
    case NonError => fallback
  }

  /** `login`: the parsed body, or `{ error }` when the request throws. */
  function Login(outcome: FetchOutcome<LoginResponse>): (r: LoginResponse)
    ensures Request(outcome).Resolved? ==> r == Request(outcome).value
    ensures Request(outcome).Rejected? ==> r == LoginError(CaughtMessage(Request(outcome).thrown, "Login failed"))
  {
    match Request(outcome)
    case Resolved(value) => value
    case Rejected(thrown) => LoginError(CaughtMessage(thrown, "Login failed"))
  }

  /** `register`: the parsed body, or `{ error }` when the request throws. */
  function Register(outcome: FetchOutcome<RegistrationResponse>): (r: RegistrationResponse)
    ensures Request(outcome).Resolved? ==> r == Request(outcome).value
    ensures Request(outcome).Rejected? ==> r == RegistrationError(CaughtMessage(Request(outcome).thrown, "Registration failed"))
  {
    match Request(outcome)
    case Resolved(value) => value
    case Rejected(thrown) => RegistrationError(CaughtMessage(thrown, "Registration failed"))
  }

  /** `verifyToken`: valid with the user when `getCurrentUser` resolves,
      otherwise not valid and without a user. */
  function VerifyToken(outcome: FetchOutcome<User>): (r: Verification)
    ensures r.valid <==> Request(outcome).Resolved?
    ensures r.valid ==> r.user == Some(Request(outcome).value)
    ensures !r.valid ==> r.user == None
  {
    match Request(outcome)
    case Resolved(user) => Verification(true, Some(user))
    case Rejected(_) => Verification(false, None)
  }

  /** `verifyEmail`: the parsed body, or `{ error }` when the request throws. */
  function VerifyEmail(outcome: FetchOutcome<RegistrationResponse>): (r: RegistrationResponse)
    ensures Request(outcome).Resolved? ==> r == Request(outcome).value
    ensures Request(outcome).Rejected? ==> r == RegistrationError(CaughtMessage(Request(outcome).thrown, "Email verification failed"))
  {
    match Request(outcome)
    case Resolved(value) => value
    case Rejected(thrown) => RegistrationError(CaughtMessage(thrown, "Email verification failed"))
  }

  /** `resendVerification`: the parsed body, or `{ error }` when the request throws. */
  function ResendVerification(outcome: FetchOutcome<RegistrationResponse>): (r: RegistrationResponse)
    ensures Request(outcome).Resolved? ==> r == Request(outcome).value
    ensures Request(outcome).Rejected? ==> r == RegistrationError(CaughtMessage(Request(outcome).thrown, "Failed to resend verification email"))
  {
    match Request(outcome)
    case Resolved(value) => value
    case Rejected(thrown) => RegistrationError(CaughtMessage(thrown, "Failed to resend verification email"))
  }

  /** A non-ok response always reaches the caller of `login` as a truthy
      `error`, so it can never be mistaken for a successful login. */
  lemma FailedLoginCarriesError(status: int, json: Json<LoginResponse>)
    ensures var r := Login(Answered(false, status, json));
      Truthy(r.error) && r.error.value == FailureMessage(status, json)
      && r.token == None && r.user == None
  {
  }

  /** A non-ok response reaches the caller of `register` as a truthy `error`. */
  lemma FailedRegisterCarriesError(status: int, json: Json<RegistrationResponse>)
    ensures var r := Register(Answered(false, status, json));
      Truthy(r.error) && r.error.value == FailureMessage(status, json) && r.message == None
  {
  }

  /** An ok response is handed back as parsed, even when it carries an `error`. */
  lemma OkBodyUnchanged(status: int, value: LoginResponse, error: Option<string>, message: Option<string>)
    ensures Login(Answered(true, status, Parsed(value, error, message))) == value
  {
  }

  /** A thrown value that is not an `Error` becomes the wrapper's own text. */
  lemma NonErrorFallbacks()
    ensures Login(TransportFailure(NonError)).error == Some("Login failed")
    ensures Register(TransportFailure(NonError)).error == Some("Registration failed")
    ensures VerifyEmail(TransportFailure(NonError)).error == Some("Email verification failed")
    ensures ResendVerification(TransportFailure(NonError)).error == Some("Failed to resend verification email")
    ensures VerifyToken(TransportFailure(NonError)) == Verification(false, None)
  {
  }
}
