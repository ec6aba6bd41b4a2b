/** JwtAuthenticationFilter: once per request, find a bearer token, decode
    it and put the identity it names into the security context, then pass
    the request on. The token decoder (signature and expiry checks) is a
    parameter of the filter. The security context and the rest of the
    filter chain are objects the filter updates in place. */
module Security {
  import opened Common
  import opened Text

  /** The identity a request runs under: a principal name and the granted
      authorities, in order. */
  datatype Authentication = Authentication(name: string, authorities: seq<string>)

  /** The two places a request can carry a token: the Authorization header
      and the `token` query parameter (absent: None). */
  datatype Request = Request(authorization: Option<string>, tokenParameter: Option<string>)

  /** The claims the filter reads from a decoded token. A token without a
      `role` claim has `role == None`. */
  datatype Claims = Claims(subject: string, role: Option<string>)

  /** A decoder: the claims of a valid token, None when decoding throws. */
  type Decoder = string -> Option<Claims>

  const BEARER_PREFIX := "Bearer "

  /** The authority granted for a role: "ROLE_" followed by the role, and by
      "null" when the claim is missing, as Java string concatenation does. */
  function Authority(role: Option<string>): (a: string)
    ensures StartsWith(a, "ROLE_")
  {
    "ROLE_" + (match role case Some(r) => r case None => "null")
  }

  /** The authority is ROLE_ADMIN exactly when the role claim is "ADMIN";
      a missing claim gives ROLE_null. */
  lemma AuthorityAdmin(role: Option<string>)
    ensures Authority(role) == "ROLE_ADMIN" <==> role == Some("ADMIN")
    ensures role.None? ==> Authority(role) == "ROLE_null"
  {
    var r := match role case Some(r) => r case None => "null";
    assert Authority(role)[5..] == r;
    if Authority(role) == "ROLE_ADMIN" {
      assert r == "ROLE_ADMIN"[5..] == "ADMIN";
    }
  }

  /** The security context of the current request. */
  class SecurityContext {
    var authentication: Option<Authentication>

    constructor ()
      ensures authentication.None?
    {
      authentication := None;
    }
  }

  /** The rest of the filter chain. Each invocation is recorded with the
      identity it ran under. */
  class FilterChain {
    var invocations: seq<Option<Authentication>>

    constructor ()
      ensures invocations == []
    {
      invocations := [];
    }

    method DoFilter(context: SecurityContext)
      modifies this
      ensures invocations == old(invocations) + [context.authentication]
    {
      invocations := invocations + [context.authentication];
    }
  }

  class JwtAuthenticationFilter {
    const decode: Decoder

    constructor (decode: Decoder)
      ensures this.decode == decode
    {
      this.decode := decode;
    }

    /** The token of a request: the Authorization header minus its "Bearer "
        prefix when it has that prefix; otherwise the `token` parameter,
        which may be absent. */
    method ExtractToken(request: Request) returns (token: Option<string>)
      ensures request.authorization.Some? && StartsWith(request.authorization.value, BEARER_PREFIX) ==>
        token.Some? && BEARER_PREFIX + token.value == request.authorization.value
      ensures !(request.authorization.Some? && StartsWith(request.authorization.value, BEARER_PREFIX)) ==>
        token == request.tokenParameter
    {
      token := None;
      var authHeader := request.authorization;
      if authHeader.Some? && StartsWith(authHeader.value, BEARER_PREFIX) {
        token := Some(authHeader.value[7..]);
        assert authHeader.value == authHeader.value[..7] + authHeader.value[7..];
      } else if request.tokenParameter.Some? {
        token := request.tokenParameter;
      }
    }

    /** doFilterInternal. Without a token the context is left as it is; a
        token that decodes sets the identity to its subject with the single
        authority for its role; one that does not decode clears the
        identity. On every path the chain is invoked exactly once, after
        the context has been updated. */
    method DoFilterInternal(request: Request, context: SecurityContext, chain: FilterChain)
      modifies context, chain
      ensures chain.invocations == old(chain.invocations) + [context.authentication]
      ensures var header := request.authorization;
        && (header.Some? && StartsWith(header.value, BEARER_PREFIX) ==>
              context.authentication == Identity(decode(header.value[7..])))
        && (!(header.Some? && StartsWith(header.value, BEARER_PREFIX)) && request.tokenParameter.Some? ==>
              context.authentication == Identity(decode(request.tokenParameter.value)))
        && (!(header.Some? && StartsWith(header.value, BEARER_PREFIX)) && request.tokenParameter.None? ==>
              context.authentication == old(context.authentication))
    {
      var token := ExtractToken(request);
      if token.None? {
        chain.DoFilter(context);
        return;
      }
      ghost var header := request.authorization;
      assert header.Some? && StartsWith(header.value, BEARER_PREFIX) ==> token.value == header.value[7..];
      match decode(token.value) {
        case Some(jwt) =>
          var username := jwt.subject;
          var role := jwt.role;
          context.authentication := Some(Authentication(username, [Authority(role)]));
        case None =>
          context.authentication := None;
      }
      chain.DoFilter(context);
    }
  }

  /** The identity a decoding result yields: the subject with the authority
      of its role, or none when decoding failed. */
  function Identity(decoded: Option<Claims>): (a: Option<Authentication>)
    ensures a.Some? <==> decoded.Some?
    ensures a.Some? ==> a.value.name == decoded.value.subject && |a.value.authorities| == 1
  {
    match decoded
    case Some(c) => Some(Authentication(c.subject, [Authority(c.role)]))
    case None => None
  }
}
