/**
 * `SecurityConfig`: the two permit lists, the permit-or-authenticated rule,
 * and one request passing through the chain with a fresh, stateless security
 * context. The `HttpSecurity` builder calls themselves are wiring.
 */
module Security {
  import opened Wrappers
  import opened PathMatching
  import Filter

  const SwaggerPaths: seq<string> := [
    "/v3/api-docs/**", "/swagger-ui/**", "/swagger-ui.html", "/swagger-resources/**", "/webjars/**"]

  const PublicEndpoints: seq<string> := ["/api/v1/users/register", "/api/v1/users/login"]

  /** The status `JwtAuthenticationEntryPoint` answers an unauthenticated caller with. */
  const Unauthorized := 401

  /** `requestMatchers(PUBLIC_ENDPOINTS).permitAll()` and
      `requestMatchers(SWAGGER_PATHS).permitAll()`. */
  predicate Permitted(path: string) {
    AnyMatch(PublicEndpoints, path) || AnyMatch(SwaggerPaths, path)
  }

  /** The authorization rule: a permitted path lets anyone through;
      `anyRequest().authenticated()` demands an authentication otherwise. */
  predicate Allows(path: string, authentication: Option<Filter.Authentication>) {
    Permitted(path) || authentication.Some?
  }

  /** What the chain after the JWT filter does: authorize, then run the
      endpoint, or answer 401 through the entry point. */
  function Authorize(path: string, authentication: Option<Filter.Authentication>,
                     endpoint: Option<Filter.Authentication> -> Filter.Outcome): (outcome: Filter.Outcome)
  {
    if Allows(path, authentication) then endpoint(authentication) else Filter.Completed(Unauthorized)
  }

  /** One request, from a security context that starts empty (sessions are
      stateless) to the endpoint's outcome. */
  function Serve(
      req: Filter.Request, validate: string -> bool, subjectOf: string -> string,
      loadUser: string -> Result<Filter.UserDetails, string>,
      endpoint: Option<Filter.Authentication> -> Filter.Outcome): (outcome: Filter.Outcome)
  {
    if Filter.ShouldNotFilter(req) then Authorize(req.uri, None, endpoint)
    else match Filter.TokenAuthentication(req, validate, subjectOf, loadUser)
      case Failure(e) => Filter.Raised(e)
      case Success(a) => Authorize(req.uri, a, endpoint)
  }

  /** Serving a request: a new empty `SecurityContext`, the JWT filter, then
      authorization. Nothing survives from an earlier request, so the outcome
      depends on this request and the collaborators alone. */
  method ServeRequest(
      req: Filter.Request, validate: string -> bool, subjectOf: string -> string,
      loadUser: string -> Result<Filter.UserDetails, string>,
      endpoint: Option<Filter.Authentication> -> Filter.Outcome)
      returns (outcome: Filter.Outcome)
    ensures outcome == Serve(req, validate, subjectOf, loadUser, endpoint)
  {
    var context := new Filter.SecurityContext();
    var chain := (a: Option<Filter.Authentication>) => Authorize(req.uri, a, endpoint);
    outcome := Filter.DoFilter(req, context, validate, subjectOf, loadUser, chain);
  }

  /** The union of the two permit lists is the filter's public list. */
  lemma PermitListsAgreeWithFilter()
    ensures Elements(PublicEndpoints + SwaggerPaths) == Elements(Filter.PublicEndpoints)
  {
  }

  /** A path is permitted exactly when the JWT filter skips it. */
  lemma PermittedIffFilterSkipped(req: Filter.Request)
    ensures Permitted(req.uri) <==> Filter.ShouldNotFilter(req)
  {
    PermitListsAgreeWithFilter();
    AnyMatchConcat(PublicEndpoints, SwaggerPaths, req.uri);
    AnyMatchDependsOnElementsOnly(PublicEndpoints + SwaggerPaths, Filter.PublicEndpoints, req.uri);
  }

  /** A permitted path reaches its endpoint, anonymously, whatever the request carries. */
  lemma PermittedPathReachesEndpoint(
      req: Filter.Request, validate: string -> bool, subjectOf: string -> string,
      loadUser: string -> Result<Filter.UserDetails, string>,
      endpoint: Option<Filter.Authentication> -> Filter.Outcome)
    requires Permitted(req.uri)
    ensures Serve(req, validate, subjectOf, loadUser, endpoint) == endpoint(None)
  {
    PermittedIffFilterSkipped(req);
  }

  /** A request to any other path without a token that has text and passes
      `validateToken` is answered 401 and never reaches its endpoint. */
  lemma ProtectedPathNeedsValidToken(
      req: Filter.Request, validate: string -> bool, subjectOf: string -> string,
      loadUser: string -> Result<Filter.UserDetails, string>,
      endpoint: Option<Filter.Authentication> -> Filter.Outcome)
    requires !Permitted(req.uri)
    requires var token := Filter.GetTokenFromRequest(req); !JavaText.HasText(token) || !validate(token.value)
    ensures Serve(req, validate, subjectOf, loadUser, endpoint) == Filter.Completed(401)
  {
    PermittedIffFilterSkipped(req);
    Filter.InvalidTokenLeavesContextAlone(req, validate, subjectOf, loadUser);
  }

  /** A request to any other path with a valid token whose subject loads
      reaches its endpoint as that user. */
  lemma ProtectedPathWithValidToken(
      req: Filter.Request, validate: string -> bool, subjectOf: string -> string,
      loadUser: string -> Result<Filter.UserDetails, string>,
      endpoint: Option<Filter.Authentication> -> Filter.Outcome, user: Filter.UserDetails)
    requires !Permitted(req.uri)
    requires var token := Filter.GetTokenFromRequest(req);
      JavaText.HasText(token) && validate(token.value) && loadUser(subjectOf(token.value)) == Success(user)
    ensures Serve(req, validate, subjectOf, loadUser, endpoint) == endpoint(Some(Filter.Authentication(user, req)))
  {
    PermittedIffFilterSkipped(req);
  }

  /** Registration, login and the five documentation patterns are permitted
      without authentication; `/api/v1/users/<id>` is not. */
  lemma PermittedPaths(rest: string, id: string)
    requires id != "register" && id != "login"
    ensures Permitted("/api/v1/users/register") && Permitted("/api/v1/users/login")
    ensures Permitted("/swagger-ui.html") && Permitted("/v3/api-docs/" + rest)
    ensures Permitted("/swagger-ui/" + rest) && Permitted("/swagger-resources/" + rest)
    ensures Permitted("/webjars/" + rest)
    ensures !Permitted("/api/v1/users/" + id)
  {
    Filter.PublicPathsSkipFilter(rest, None);
    PermittedIffFilterSkipped(Filter.Request("/api/v1/users/register", None));
    PermittedIffFilterSkipped(Filter.Request("/api/v1/users/login", None));
    PermittedIffFilterSkipped(Filter.Request("/swagger-ui.html", None));
    PermittedIffFilterSkipped(Filter.Request("/v3/api-docs/" + rest, None));
    PermittedIffFilterSkipped(Filter.Request("/swagger-ui/" + rest, None));
    PermittedIffFilterSkipped(Filter.Request("/swagger-resources/" + rest, None));
    PermittedIffFilterSkipped(Filter.Request("/webjars/" + rest, None));
    Filter.UserPathIsFiltered(id, None);
    PermittedIffFilterSkipped(Filter.Request("/api/v1/users/" + id, None));
  }
}
