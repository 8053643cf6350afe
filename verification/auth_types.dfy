/** The records exchanged with the authentication back end (src/types/auth.ts). */
module AuthTypes {
  import opened Js

  datatype UserStatus = Active | Pending | Inactive

  datatype User = User(
    id: string,
    firstName: string,
    lastName: string,
    email: string,
    phoneNumber: Option<string>,
    emailVerified: bool,
    status: UserStatus,
    roles: seq<string>,
    createdAt: string,
    updatedAt: string)

  datatype Tenant = Tenant(id: string, name: string, displayName: Option<string>)

  datatype LoginRequest = LoginRequest(email: string, password: string)

  /** Every field is optional; the back end signals failure through `error`. */
  datatype LoginResponse = LoginResponse(
    token: Option<string>,
    refreshToken: Option<string>,
    user: Option<User>,
    tenant: Option<Tenant>,
    mustChangePassword: Option<bool>,
    error: Option<string>)

  /** On the wire the keys are `first_name`, `last_name`, `email`,
      `phone_number` and `password`. */
  datatype RegisterRequest = RegisterRequest(
    firstName: string,
    lastName: string,
    email: string,
    phoneNumber: string,
    password: string)

  datatype RegistrationResponse = RegistrationResponse(message: Option<string>, error: Option<string>)

  /** `{ valid: boolean; user?: User }` of a token check. */
  datatype Verification = Verification(valid: bool, user: Option<User>)

  /** `{ error: message }` as a login response. */
  function LoginError(message: string): LoginResponse
  {
    LoginResponse(None, None, None, None, None, Some(message))
  }

  /** `{ error: message }` as a registration response. */
  function RegistrationError(message: string): RegistrationResponse
  {
    RegistrationResponse(None, Some(message))
  }
}
