/**
 * End-to-end properties that cross the service, the exception handler and
 * the security chain: what a client sees after registering or logging in.
 */
module Scenarios {
  import opened Wrappers
  import opened JavaText
  import opened Entity
  import opened Dto
  import opened Exceptions
  import opened Repository
  import opened Mapper
  import opened Service
  import opened ExceptionHandler
  import Filter
  import Security

  /** A registration refused by the pre-check reaches the client as 409
      Conflict carrying the service's message. */
  lemma RefusedRegistrationIsConflict(rows: seq<UserRecord>, dto: UserDTO, encode: string -> string,
                                      newId: Uuid, first: Instant, second: Instant, path: string)
    requires dto.id.None? && dto.password.Some? && ExistsByUsernameOrEmail(rows, dto.username, dto.email)
    ensures var reg := Register(rows, dto, encode, newId, first, second);
      && reg.result.Failure?
      && var resp := HandleException(reg.result.error, path);
      && resp.status == 409 && resp.error == "Conflict" && resp.message == reg.result.error.message
      && (resp.message == "Email already exists" || resp.message == "Username already exists")
  {
    RegisterNeverFallsThrough(rows, dto, encode, newId, first, second);
  }

  /** The two login failures: an unknown username is 404 Not Found, a wrong
      password 500 Internal Server Error (no handler is specific to it). */
  lemma LoginFailureStatuses(username: string, path: string)
    ensures HandleException(ResourceNotFound("User not found with username: " + username), path)
         == ErrorResponse(404, "Not Found", "User not found with username: " + username, path, None)
    ensures HandleException(BadCredentials("Invalid password"), path)
         == ErrorResponse(500, "Internal Server Error", "Invalid password", path, None)
  {
  }

  /** A client that sends back the login response's `tokenType`, a space and
      its `token` reaches a protected user endpoint as that user, provided the
      token provider accepts its own tokens and names the user as subject, and
      the user loads by name. */
  lemma IssuedTokenOpensProtectedPaths(
      user: UserRecord, now: Instant, generateToken: (UserRecord, Instant) -> string,
      validate: string -> bool, subjectOf: string -> string,
      loadUser: string -> Result<Filter.UserDetails, string>,
      endpoint: Option<Filter.Authentication> -> Filter.Outcome, id: string)
    requires user.username.Some?
    requires var t := generateToken(user, now); HasText(Some(t)) && validate(t) && subjectOf(t) == user.username.value
    requires loadUser(user.username.value) == Success(Filter.UserDetails(user.username.value))
    requires id != "register" && id != "login"
    ensures var a := BuildAuthResponse(generateToken(user, now), ToResponse(ToDTO(user)));
      var req := Filter.Request("/api/v1/users/" + id, Some(a.tokenType + " " + a.token));
      Security.Serve(req, validate, subjectOf, loadUser, endpoint)
        == endpoint(Some(Filter.Authentication(Filter.UserDetails(user.username.value), req)))
  {
    var t := generateToken(user, now);
    var a := BuildAuthResponse(t, ToResponse(ToDTO(user)));
    var req := Filter.Request("/api/v1/users/" + id, Some(a.tokenType + " " + a.token));
    assert a.tokenType + " " + a.token == "Bearer " + t;
    Filter.BearerRoundTrip(req.uri, t);
    Security.PermittedPaths("", id);
    Security.ProtectedPathWithValidToken(req, validate, subjectOf, loadUser, endpoint,
                                         Filter.UserDetails(user.username.value));
  }

  /** Registering `jack12` into an empty table succeeds; registering the same
      username again with another email is refused, and the table keeps one row. */
  lemma SecondRegistrationIsRefused(encode: string -> string, id1: Uuid, id2: Uuid, t1: Instant, t2: Instant)
    ensures var first := Register([], CreateRequestToDTO(CreateUserRequest(Some("jack12"), Some("jack12@email.com"), Some("SecureP@ssw0rd"))),
                                  encode, id1, t1, t1);
      var second := Register(first.rows, CreateRequestToDTO(CreateUserRequest(Some("jack12"), Some("jack@other.com"), Some("SecureP@ssw0rd"))),
                             encode, id2, t2, t2);
      && first.result.Success? && first.result.value.username == Some("jack12") && |first.rows| == 1
      && second == Registration(Failure(ResourceAlreadyExists("Username already exists")), first.rows)
  {
    var d1 := CreateRequestToDTO(CreateUserRequest(Some("jack12"), Some("jack12@email.com"), Some("SecureP@ssw0rd")));
    var d2 := CreateRequestToDTO(CreateUserRequest(Some("jack12"), Some("jack@other.com"), Some("SecureP@ssw0rd")));
    RegisterSucceeds([], d1, encode, id1, t1, t1);
    var first := Register([], d1, encode, id1, t1, t1);
    assert !ExistsByEmail(first.rows, d2.email) by {
      assert first.rows[0].email == Some("jack12@email.com");
      assert "jack12@email.com" != "jack@other.com" by { assert "jack12@email.com"[4] != "jack@other.com"[4]; }
    }
    assert HasUsername(first.rows[0], d2.username);
    RegisterUsernameTaken(first.rows, d2, encode, id2, t2, t2);
  }
}
