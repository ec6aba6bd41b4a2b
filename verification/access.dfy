/** AccessService: the decision that gates every per-runner operation. An
    admin may act on any runner; anyone else only on their own account. */
module Access {
  import opened Common
  import opened Entities
  import opened Repositories
  import opened Security

  const ADMIN_AUTHORITY := "ROLE_ADMIN"

  /** The caller is authenticated and one of its authorities is exactly
      ROLE_ADMIN. */
  predicate HasAdminAuthority(authentication: Option<Authentication>) {
    authentication.Some? && ADMIN_AUTHORITY in authentication.value.authorities
  }

  /** An identity set by the token filter is an admin exactly when the
      token's role claim is "ADMIN"; no identity at all is never an admin. */
  lemma AdminExactlyForAdminRole(decoded: Option<Claims>)
    ensures HasAdminAuthority(Identity(decoded)) <==> decoded.Some? && decoded.value.role == Some("ADMIN")
  {
    if decoded.Some? {
      AuthorityAdmin(decoded.value.role);
      assert Identity(decoded).value.authorities == [Authority(decoded.value.role)];
    }
  }

  class AccessService {
    const runnerRepository: RunnerRepository

    constructor (runnerRepository: RunnerRepository)
      ensures this.runnerRepository == runnerRepository
    {
      this.runnerRepository := runnerRepository;
    }

    /** isAdmin: a search of the authorities for ROLE_ADMIN that stops at
        the first match. */
    method IsAdmin(authentication: Option<Authentication>) returns (admin: bool)
      ensures admin <==> HasAdminAuthority(authentication)
    {
      if authentication.None? {
        return false;
      }
      var authorities := authentication.value.authorities;
      for i := 0 to |authorities|
        invariant ADMIN_AUTHORITY !in authorities[..i]
      {
        if authorities[i] == ADMIN_AUTHORITY {
          return true;
        }
      }
      assert authorities[..|authorities|] == authorities;
      return false;
    }

    /** currentRunner: the stored runner named by the caller's identity. */
    function CurrentRunner(authentication: Option<Authentication>): (r: Result<Runner>)
      reads runnerRepository
      ensures authentication.None? ==> r == Err(Forbidden("Not authenticated"))
      ensures authentication.Some? && !ExistsByUsername(runnerRepository.rows, authentication.value.name) ==>
        r == Err(NotFound("Current user not found"))
      ensures authentication.Some? && ExistsByUsername(runnerRepository.rows, authentication.value.name) ==>
        r.Ok? && r.value in runnerRepository.rows && r.value.username == authentication.value.name
    {
      match authentication
      case None => Err(Forbidden("Not authenticated"))
      case Some(a) =>
        match FindByUsername(runnerRepository.rows, a.name)
        case None => Err(NotFound("Current user not found"))
        case Some(me) => Ok(me)
    }

    /** checkRunnerAccess: an admin passes without any lookup; anyone else
        passes exactly when the stored id of its username is `runnerId`, and
        otherwise fails with the error that stopped it. Nothing is
        changed. */
    method CheckRunnerAccess(authentication: Option<Authentication>, runnerId: RunnerId) returns (outcome: Outcome)
      ensures HasAdminAuthority(authentication) ==> outcome == Pass
      ensures !HasAdminAuthority(authentication) && CurrentRunner(authentication).Err? ==>
        outcome == Fail(CurrentRunner(authentication).error)
      ensures !HasAdminAuthority(authentication) && CurrentRunner(authentication).Ok? ==>
        && (outcome == Pass <==> CurrentRunner(authentication).value.id == Some(runnerId))
        && (outcome != Pass ==> outcome == Fail(Forbidden("Access denied")))
      ensures outcome == Pass || outcome.error.Forbidden? || outcome.error.NotFound?
    {
      var admin := IsAdmin(authentication);
      if admin {
        return Pass;
      }
      var me := CurrentRunner(authentication);
      if me.Err? {
        return Fail(me.error);
      }
      if me.value.id != Some(runnerId) {
        return Fail(Forbidden("Access denied"));
      }
      return Pass;
    }
  }
}
