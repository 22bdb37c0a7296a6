/**
 * `JwtAuthenticationFilter`: skips the public endpoints, and otherwise puts
 * an authentication into the request's security context when the request
 * carries a bearer token the token provider accepts. It never rejects a
 * request itself. The token provider (`validateToken`,
 * `getUsernameFromToken`) and `loadUserByUsername` are parameters.
 */
module Filter {
  import opened Wrappers
  import opened JavaText
  import opened PathMatching

  /** The parts of an `HttpServletRequest` the filter reads: the request URI
      and the `Authorization` header (null when absent). */
  datatype Request = Request(uri: string, authorization: Option<string>)

  /** The `UserDetails` loaded for a token's subject (only its name is modelled). */
  datatype UserDetails = UserDetails(username: string)

  /** A `UsernamePasswordAuthenticationToken` with its principal and the
      request its web details were built from. */
  datatype Authentication = Authentication(principal: UserDetails, details: Request)

  /** How the rest of the chain finished: a response status, or an exception
      that propagated out of it. */
  datatype Outcome = Completed(status: int) | Raised(message: string)

  const PublicEndpoints: seq<string> := [
    "/api/v1/users/register",
    "/api/v1/users/login",
    "/v3/api-docs/**",
    "/swagger-ui/**",
    "/swagger-ui.html",
    "/swagger-resources/**",
    "/webjars/**"]

  const BearerPrefix := "Bearer "

  /** `getTokenFromRequest`: the header minus its first 7 characters when it
      has text and starts with "Bearer ", otherwise null. */
  function GetTokenFromRequest(req: Request): (token: Option<string>)
    ensures token.Some? <==> HasText(req.authorization) && StartsWith(req.authorization.value, "Bearer ")
    ensures token.Some? ==> req.authorization.value == "Bearer " + token.value
  {
    var header := req.authorization;
    if HasText(header) && StartsWith(header.value, BearerPrefix) then
      assert header.value == header.value[..7] + header.value[7..];
      Some(header.value[7..])
    else
      None
  }

  /** `shouldNotFilter`: the request URI matches a public endpoint pattern. */
  predicate ShouldNotFilter(req: Request) {
    AnyMatch(PublicEndpoints, req.uri)
  }

  /** The authentication `doFilterInternal` establishes: `Success(None)` when it
      leaves the context alone, `Failure` when `loadUserByUsername` throws. */
  function TokenAuthentication(
      req: Request, validate: string -> bool, subjectOf: string -> string,
      loadUser: string -> Result<UserDetails, string>): (auth: Result<Option<Authentication>, string>)
  {
    var token := GetTokenFromRequest(req);
    if HasText(token) && validate(token.value) then
      match loadUser(subjectOf(token.value))
      case Success(details) => Success(Some(Authentication(details, req)))
      case Failure(e) => Failure(e)
    else
      Success(None)
  }

  /** The request's `SecurityContext`. */
  class SecurityContext {
    var authentication: Option<Authentication>

    constructor ()
      ensures authentication.None?
    {
      authentication := None;
    }

    method SetAuthentication(a: Authentication)
      modifies this
      ensures authentication == Some(a)
    {
      authentication := Some(a);
    }
  }

  /** `doFilterInternal`: authenticate when the token allows it, then hand the
      request to the rest of the chain exactly once; an exception from either
      step propagates unchanged. */
  method DoFilterInternal(
      req: Request, context: SecurityContext,
      validate: string -> bool, subjectOf: string -> string,
      loadUser: string -> Result<UserDetails, string>,
      chain: Option<Authentication> -> Outcome)
      returns (outcome: Outcome)
    modifies context
    ensures match TokenAuthentication(req, validate, subjectOf, loadUser)
      case Failure(e) => outcome == Raised(e) && context.authentication == old(context.authentication)
      case Success(None) => context.authentication == old(context.authentication) && outcome == chain(context.authentication)
      case Success(Some(a)) => context.authentication == Some(a) && outcome == chain(Some(a))
  {
    var token := GetTokenFromRequest(req);
    if HasText(token) && validate(token.value) {
      var username := subjectOf(token.value);
      var loaded := loadUser(username);
      if loaded.Failure? {
        outcome := Raised(loaded.error);
        return;
      }
      context.SetAuthentication(Authentication(loaded.value, req));
    }
    outcome := chain(context.authentication);
  }

  /** `OncePerRequestFilter.doFilter`: a public endpoint goes straight to the
      rest of the chain, every other request through `doFilterInternal`. */
  method DoFilter(
      req: Request, context: SecurityContext,
      validate: string -> bool, subjectOf: string -> string,
      loadUser: string -> Result<UserDetails, string>,
      chain: Option<Authentication> -> Outcome)
      returns (outcome: Outcome)
    modifies context
    ensures ShouldNotFilter(req) ==>
      context.authentication == old(context.authentication) && outcome == chain(context.authentication)
    ensures !ShouldNotFilter(req) ==> match TokenAuthentication(req, validate, subjectOf, loadUser)
      case Failure(e) => outcome == Raised(e) && context.authentication == old(context.authentication)
      case Success(None) => context.authentication == old(context.authentication) && outcome == chain(context.authentication)
      case Success(Some(a)) => context.authentication == Some(a) && outcome == chain(Some(a))
  {
    if ShouldNotFilter(req) {
      outcome := chain(context.authentication);
    } else {
      outcome := DoFilterInternal(req, context, validate, subjectOf, loadUser, chain);
    }
  }

  /** A header "Bearer " + t always yields t. */
  lemma BearerRoundTrip(uri: string, t: string)
    ensures GetTokenFromRequest(Request(uri, Some("Bearer " + t))) == Some(t)
  {
    var h := "Bearer " + t;
    assert h[0] == 'B' && !IsWhitespace(h[0]);
    assert StartsWith(h, BearerPrefix);
    assert h[7..] == t;
  }

  /** The prefix is case-sensitive and needs its space. */
  lemma PrefixIsExact(uri: string)
    ensures GetTokenFromRequest(Request(uri, Some("bearer x"))).None?
    ensures GetTokenFromRequest(Request(uri, Some("Bearer"))).None?
    ensures GetTokenFromRequest(Request(uri, None)).None?
  {
    assert !StartsWith("bearer x", BearerPrefix) by { assert "bearer x"[0] != BearerPrefix[0]; }
  }

  /** An authentication is set only for a token that has text and passes
      `validateToken`, and its principal is the user loaded for the token's
      subject. */
  lemma AuthenticationNeedsValidToken(
      req: Request, validate: string -> bool, subjectOf: string -> string,
      loadUser: string -> Result<UserDetails, string>, a: Authentication)
    requires TokenAuthentication(req, validate, subjectOf, loadUser) == Success(Some(a))
    ensures var token := GetTokenFromRequest(req);
      && token.Some? && HasText(token) && validate(token.value)
      && loadUser(subjectOf(token.value)) == Success(a.principal)
      && a.details == req
  {
  }

  /** With no token, a blank token or one `validateToken` refuses, the filter
      leaves the context alone and does not fail. */
  lemma InvalidTokenLeavesContextAlone(
      req: Request, validate: string -> bool, subjectOf: string -> string,
      loadUser: string -> Result<UserDetails, string>)
    requires var token := GetTokenFromRequest(req); !HasText(token) || !validate(token.value)
    ensures TokenAuthentication(req, validate, subjectOf, loadUser) == Success(None)
  {
  }

  /** The registration and login endpoints and the documentation paths, with
      everything below a subtree pattern, skip the filter. */
  lemma PublicPathsSkipFilter(rest: string, authorization: Option<string>)
    ensures ShouldNotFilter(Request("/api/v1/users/register", authorization))
    ensures ShouldNotFilter(Request("/api/v1/users/login", authorization))
    ensures ShouldNotFilter(Request("/swagger-ui.html", authorization))
    ensures ShouldNotFilter(Request("/v3/api-docs", authorization))
    ensures ShouldNotFilter(Request("/v3/api-docs/" + rest, authorization))
    ensures ShouldNotFilter(Request("/swagger-ui/" + rest, authorization))
    ensures ShouldNotFilter(Request("/swagger-resources/" + rest, authorization))
    ensures ShouldNotFilter(Request("/webjars/" + rest, authorization))
    ensures ShouldNotFilter(Request("/swagger-ui", authorization))
    ensures ShouldNotFilter(Request("/swagger-resources", authorization))
    ensures ShouldNotFilter(Request("/webjars", authorization))
  {
    assert Matches(PublicEndpoints[0], "/api/v1/users/register");
    assert Matches(PublicEndpoints[1], "/api/v1/users/login");
    assert Matches(PublicEndpoints[4], "/swagger-ui.html");
    assert IsSubtreePattern(PublicEndpoints[2]) && SubtreeBase(PublicEndpoints[2]) == "/v3/api-docs";
    assert IsSubtreePattern(PublicEndpoints[3]) && SubtreeBase(PublicEndpoints[3]) == "/swagger-ui";
    assert IsSubtreePattern(PublicEndpoints[5]) && SubtreeBase(PublicEndpoints[5]) == "/swagger-resources";
    assert IsSubtreePattern(PublicEndpoints[6]) && SubtreeBase(PublicEndpoints[6]) == "/webjars";
    SubtreeCoversBaseAndBelow(PublicEndpoints[2], rest);
    SubtreeCoversBaseAndBelow(PublicEndpoints[3], rest);
    SubtreeCoversBaseAndBelow(PublicEndpoints[5], rest);
    SubtreeCoversBaseAndBelow(PublicEndpoints[6], rest);
  }

  /** Every subtree pattern among the public endpoints lets its base path and
      everything below it skip the filter. */
  lemma SubtreeEndpointsSkipFilter(rest: string, authorization: Option<string>)
    ensures forall p | p in PublicEndpoints && IsSubtreePattern(p) ::
      && ShouldNotFilter(Request(SubtreeBase(p), authorization))
      && ShouldNotFilter(Request(SubtreeBase(p) + "/" + rest, authorization))
  {
    forall p | p in PublicEndpoints && IsSubtreePattern(p)
      ensures ShouldNotFilter(Request(SubtreeBase(p), authorization))
      ensures ShouldNotFilter(Request(SubtreeBase(p) + "/" + rest, authorization))
    {
      var k :| 0 <= k < |PublicEndpoints| && PublicEndpoints[k] == p;
      SubtreeCoversBaseAndBelow(p, rest);
      assert Matches(PublicEndpoints[k], SubtreeBase(p));
      assert Matches(PublicEndpoints[k], SubtreeBase(p) + "/" + rest);
    }
  }

  /** `/api/v1/users/<id>` is filtered for every id other than the two public ones. */
  lemma UserPathIsFiltered(id: string, authorization: Option<string>)
    requires id != "register" && id != "login"
    ensures !ShouldNotFilter(Request("/api/v1/users/" + id, authorization))
  {
    var path := "/api/v1/users/" + id;
    assert path[..14] == "/api/v1/users/" && path[14..] == id;
    assert path[1] == 'a';
    forall i | 0 <= i < |PublicEndpoints| ensures !Matches(PublicEndpoints[i], path) {
      var p := PublicEndpoints[i];
      if i == 0 {
        assert !IsSubtreePattern(p) && p[14..] == "register";
      } else if i == 1 {
        assert !IsSubtreePattern(p) && p[14..] == "login";
      } else if i == 4 {
        assert !IsSubtreePattern(p) && p[1] == 's';
      } else {
        assert IsSubtreePattern(p);
        var base := SubtreeBase(p);
        assert base[1] != 'a' && (base + "/")[1] == base[1];
      }
    }
  }
}
