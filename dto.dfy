/** The data carriers: `UserDTO`, the request bodies, the response bodies,
    and the binding-result entries Spring validation produces. */
module Dto {
  import opened Wrappers
  import opened Entity

  /** `UserDTO`: the service-layer shape, with every field nullable. */
  datatype UserDTO = UserDTO(
    id: Option<Uuid>,
    username: Option<string>,
    email: Option<string>,
    password: Option<string>,
    createdAt: Option<Instant>,
    updatedAt: Option<Instant>)

  /** `UserResponse`: the outward projection; it has no password field. */
  datatype UserResponse = UserResponse(
    id: Option<Uuid>,
    username: Option<string>,
    email: Option<string>,
    createdAt: Option<Instant>,
    updatedAt: Option<Instant>)

  /** `AuthResponse`: the login response. */
  datatype AuthResponse = AuthResponse(token: string, tokenType: string, user: UserResponse)

  /** The token type the `AuthResponse` builder constructor always sets. */
  const BearerTokenType := "Bearer"

  /** `AuthResponse.builder().token(t).user(u).build()`. */
  function BuildAuthResponse(token: string, user: UserResponse): (a: AuthResponse)
    ensures a.tokenType == "Bearer"
    ensures a.token == token && a.user == user
  {
    AuthResponse(token, BearerTokenType, user)
  }

  /** `CreateUserRequest`: the registration body. */
  datatype CreateUserRequest = CreateUserRequest(
    username: Option<string>,
    email: Option<string>,
    password: Option<string>)

  /** `LoginRequest`: the login body. */
  datatype LoginRequest = LoginRequest(username: Option<string>, password: Option<string>)

  /** A field error of a binding result: the field name and its message. */
  datatype FieldError = FieldError(field: string, message: string)

  /** A global (object-level) error of a binding result. */
  datatype ObjectError = ObjectError(objectName: string, message: string)
}
