/**
 * The Spring Security values the core reads and writes: the authenticated
 * principal and the per-request security context.
 */
module Security {
  import opened Wrappers

  /** UserDetails as loaded by the user-details service; only the username is read. */
  datatype UserDetails = UserDetails(username: string)

  /**
   * The principal of an Authentication. Any principal that is not a
   * UserDetails makes the `(UserDetails)` cast fail, with the given message.
   */
  datatype Principal = UserPrincipal(details: UserDetails) | OtherPrincipal(castFailure: string)

  datatype Authentication = Authentication(principal: Principal, authenticated: bool)

  /** The security context of the request being served: at most one authentication. */
  class SecurityContext {
    var authentication: Option<Authentication>

    constructor(a: Option<Authentication>)
      ensures authentication == a
    {
      authentication := a;
    }
  }
}
