/**
 * JwtAuthFilter: for every request outside the public routes it reads a bearer
 * token from the Authorization header and, when the token checks out for the
 * user it names, attaches that user to the security context. JwtUtil and the
 * user-details service are not part of this model; they are inputs, each call
 * returning a value or throwing.
 */
module JwtAuthFilter {
  import opened Wrappers
  import opened JavaText
  import opened Remote
  import opened Security

  const BearerPrefix := "Bearer "

  /** The parts of JwtUtil the filter calls. */
  datatype JwtUtil = JwtUtil(
    extractUsername: string -> Result<Option<string>, JavaException>,
    isTokenValid: (string, UserDetails) -> Result<bool, JavaException>)

  /** userDetailsService.loadUserByUsername. */
  type UserDetailsService = string -> Result<UserDetails, JavaException>

  datatype HttpRequest = HttpRequest(requestUri: string, authorization: Option<string>)

  /** The rest of the filter chain; it records the requests passed on to it. */
  class FilterChain {
    var forwarded: seq<HttpRequest>

    constructor()
      ensures forwarded == []
    {
      forwarded := [];
    }

    method DoFilter(request: HttpRequest)
      modifies this
      ensures forwarded == old(forwarded) + [request]
    {
      forwarded := forwarded + [request];
    }
  }

  /** The routes that skip token handling. */
  predicate IsPublicRoute(uri: string) {
    Contains(uri, "/health") || StartsWith(uri, "/api/auth/")
  }

  /** The token: the header with its case-sensitive "Bearer " prefix removed. */
  function BearerToken(header: Option<string>): (t: Option<string>)
    ensures t.Some? <==> header.Some? && StartsWith(header.value, BearerPrefix)
    ensures t.Some? ==> header.value == BearerPrefix + t.value
  {
    if header.Some? && StartsWith(header.value, BearerPrefix) then Some(header.value[|BearerPrefix|..]) else None
  }

  /** Prefixing a token and reading it back gives the token. */
  lemma BearerTokenRoundTrip(token: string)
    ensures BearerToken(Some(BearerPrefix + token)) == Some(token)
  {
    assert (BearerPrefix + token)[..|BearerPrefix|] == BearerPrefix;
    assert (BearerPrefix + token)[|BearerPrefix|..] == token;
  }

  /** Another case of the scheme name is no bearer token. */
  lemma LowerCaseSchemeIsNoToken(rest: string)
    ensures BearerToken(Some("bearer " + rest)).None?
  {
    assert ("bearer " + rest)[0] == 'b';
  }

  /** The authentication the filter attaches, if any; every exception leaves none. */
  function Attached(request: HttpRequest, existing: Option<Authentication>,
                    jwt: JwtUtil, users: UserDetailsService): Option<Authentication>
  {
    if IsPublicRoute(request.requestUri) then None
    else
      match BearerToken(request.authorization)
      case None => None
      case Some(token) =>
        match jwt.extractUsername(token)
        case Err(_) => None
        case Ok(None) => None
        case Ok(Some(username)) =>
          if existing.Some? then None
          else
            match users(username)
            case Err(_) => None
            case Ok(details) =>
              if jwt.isTokenValid(token, details) == Ok(true)
              then Some(Authentication(UserPrincipal(details), true))
              else None
  }

  /** The authentication in the context once the filter has run. */
  function AuthenticationAfter(request: HttpRequest, existing: Option<Authentication>,
                               jwt: JwtUtil, users: UserDetailsService): Option<Authentication>
  {
    var attached := Attached(request, existing, jwt, users);
    if attached.Some? then attached else existing
  }

  /** doFilterInternal. */
  method DoFilterInternal(request: HttpRequest, context: SecurityContext, chain: FilterChain,
                          jwt: JwtUtil, users: UserDetailsService)
    modifies context, chain
    ensures chain.forwarded == old(chain.forwarded) + [request]
    ensures context.authentication == AuthenticationAfter(request, old(context.authentication), jwt, users)
  {
    if IsPublicRoute(request.requestUri) {
      chain.DoFilter(request);
      return;
    }
    var authHeader := request.authorization;
    var token: Option<string> := None;
    var username: Option<string> := None;
    var threw := false;
    if authHeader.Some? && StartsWith(authHeader.value, BearerPrefix) {
      token := Some(authHeader.value[|BearerPrefix|..]);
      match jwt.extractUsername(token.value) {
        case Err(_) => threw := true;
        case Ok(u) => username := u;
      }
    }
    if !threw && username.Some? && context.authentication.None? {
      match users(username.value) {
        case Err(_) =>
        case Ok(details) =>
          if jwt.isTokenValid(token.value, details) == Ok(true) {
            context.authentication := Some(Authentication(UserPrincipal(details), true));
          }
      }
    }
    chain.DoFilter(request);
  }

  /** A public route leaves the context as it was. */
  lemma PublicRouteUntouched(request: HttpRequest, existing: Option<Authentication>, jwt: JwtUtil, users: UserDetailsService)
    requires IsPublicRoute(request.requestUri)
    ensures AuthenticationAfter(request, existing, jwt, users) == existing
  {
  }

  /** Health checks anywhere in the path and the auth routes are public. */
  lemma PublicRoutes(prefix: string, suffix: string)
    ensures IsPublicRoute(prefix + "/health" + suffix)
    ensures IsPublicRoute("/api/auth/" + suffix)
  {
    assert OccursAt("/health", "/health", 0);
    ContainsWithin("/health", "/health", prefix, suffix);
    assert ("/api/auth/" + suffix)[..|"/api/auth/"|] == "/api/auth/";
  }

  /** An authentication already in the context is never replaced. */
  lemma ExistingAuthenticationKept(request: HttpRequest, a: Authentication, jwt: JwtUtil, users: UserDetailsService)
    ensures AuthenticationAfter(request, Some(a), jwt, users) == Some(a)
  {
  }

  /** No header, or a header without the "Bearer " prefix, attaches nothing. */
  lemma NoBearerNoAuthentication(request: HttpRequest, existing: Option<Authentication>, jwt: JwtUtil, users: UserDetailsService)
    requires request.authorization.None? || !StartsWith(request.authorization.value, BearerPrefix)
    ensures AuthenticationAfter(request, existing, jwt, users) == existing
  {
  }

  /**
   * An authentication is set exactly when the route is protected, a username
   * was read from the bearer token, the context was empty, the user loaded and
   * the token is valid for that user, who then becomes the principal.
   */
  lemma AuthenticationSetIff(request: HttpRequest, existing: Option<Authentication>, jwt: JwtUtil, users: UserDetailsService)
    ensures var after := AuthenticationAfter(request, existing, jwt, users);
      after != existing <==>
        && !IsPublicRoute(request.requestUri)
        && existing.None?
        && BearerToken(request.authorization).Some?
        && jwt.extractUsername(BearerToken(request.authorization).value).Ok?
        && jwt.extractUsername(BearerToken(request.authorization).value).value.Some?
        && users(jwt.extractUsername(BearerToken(request.authorization).value).value.value).Ok?
        && jwt.isTokenValid(BearerToken(request.authorization).value,
             users(jwt.extractUsername(BearerToken(request.authorization).value).value.value).value) == Ok(true)
    ensures var after := AuthenticationAfter(request, existing, jwt, users);
      after != existing ==>
        after == Some(Authentication(UserPrincipal(users(jwt.extractUsername(BearerToken(request.authorization).value).value.value).value), true))
  {
  }

  /** A token that is not valid for its user sets nothing. */
  lemma InvalidTokenNoAuthentication(request: HttpRequest, jwt: JwtUtil, users: UserDetailsService, username: string, details: UserDetails)
    requires BearerToken(request.authorization).Some?
    requires jwt.extractUsername(BearerToken(request.authorization).value) == Ok(Some(username))
    requires users(username) == Ok(details)
    requires jwt.isTokenValid(BearerToken(request.authorization).value, details) != Ok(true)
    ensures AuthenticationAfter(request, None, jwt, users) == None
  {
  }
}
