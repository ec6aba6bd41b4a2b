/** AuthService: registration and login. Password hashing, the
    AuthenticationManager's credential check and token signing are calls
    into code outside this model, so each is a function the service is
    built with. */
module Auth {
  import opened Common
  import opened Entities
  import opened Repositories

  /** PasswordEncoder.encode: raw password to stored hash. */
  type Encoder = string -> string
  /** AuthenticationManager.authenticate: true when the credentials are
      accepted, false where it throws. */
  type Authenticator = (string, string) -> bool
  /** JwtService.generateToken(username, role). */
  type TokenGenerator = (string, string) -> string

  /** Appending a runner keeps every stored owner findable. */
  lemma AppendRunnerKeepsIntegrity(rows: seq<Runner>, r: Runner, acts: seq<Activity>, badges: seq<Badge>)
    requires Integrity(rows, acts, badges)
    ensures Integrity(rows + [r], acts, badges)
  {
    forall x: RunnerId | FindRunnerIndex(rows, x).Some? ensures FindRunnerIndex(rows + [r], x).Some? {
      var k := FindRunnerIndex(rows, x).value;
      assert (rows + [r])[k].id == Some(x);
    }
  }

  class AuthService {
    const runnerRepository: RunnerRepository
    const encode: Encoder
    const authenticate: Authenticator
    const generateToken: TokenGenerator

    constructor (runnerRepository: RunnerRepository, encode: Encoder, authenticate: Authenticator, generateToken: TokenGenerator)
      ensures this.runnerRepository == runnerRepository
      ensures this.encode == encode && this.authenticate == authenticate && this.generateToken == generateToken
    {
      this.runnerRepository := runnerRepository;
      this.encode := encode;
      this.authenticate := authenticate;
      this.generateToken := generateToken;
    }

    /** register. A taken username fails first, then a taken e-mail; on a
        conflict nothing is stored. Otherwise one runner is appended under
        the next id, with the username and e-mail given, the encoded
        password, role USER, joined `now` and no weight, and the result is
        the token for that username and role USER. */
    method Register(username: string, email: string, password: string, now: DateTime) returns (res: Result<string>)
      requires runnerRepository.Valid()
      modifies runnerRepository
      ensures runnerRepository.Valid()
      ensures ExistsByUsername(old(runnerRepository.rows), username) ==>
        && res == Err(Conflict("Username already exists"))
        && runnerRepository.rows == old(runnerRepository.rows) && runnerRepository.nextId == old(runnerRepository.nextId)
      ensures !ExistsByUsername(old(runnerRepository.rows), username) && ExistsByEmail(old(runnerRepository.rows), email) ==>
        && res == Err(Conflict("Email already exists"))
        && runnerRepository.rows == old(runnerRepository.rows) && runnerRepository.nextId == old(runnerRepository.nextId)
      ensures !ExistsByUsername(old(runnerRepository.rows), username) && !ExistsByEmail(old(runnerRepository.rows), email) ==>
        && res == Ok(generateToken(username, USER_ROLE))
        && |runnerRepository.rows| == |old(runnerRepository.rows)| + 1
        && runnerRepository.rows[..|old(runnerRepository.rows)|] == old(runnerRepository.rows)
        && var stored := runnerRepository.rows[|old(runnerRepository.rows)|];
           && stored.id == Some(old(runnerRepository.nextId))
           && stored.username == username && stored.email == email
           && stored.passwordHash == encode(password)
           && stored.role == USER_ROLE && stored.dateJoined == now && stored.weight.None?
    {
      if ExistsByUsername(runnerRepository.rows, username) {
        return Err(Conflict("Username already exists"));
      }
      if ExistsByEmail(runnerRepository.rows, email) {
        return Err(Conflict("Email already exists"));
      }
      // The no-argument constructor followed by the five setters.
      var runner := NewRunner(username, email, encode(password), now);
      var saved := runnerRepository.Save(runner);
      assert runnerRepository.rows[..|old(runnerRepository.rows)|] == old(runnerRepository.rows);
      res := Ok(generateToken(runner.username, runner.role));
    }

    /** login. Credentials the authentication manager refuses fail
        BadCredentials; an accepted username that is not stored fails
        NotFound; otherwise the result is the token for the stored
        username and its stored role. Nothing is changed. */
    method Login(username: string, password: string) returns (res: Result<string>)
      ensures !authenticate(username, password) ==> res == Err(BadCredentials)
      ensures authenticate(username, password) && !ExistsByUsername(runnerRepository.rows, username) ==>
        res == Err(NotFound("User not found"))
      ensures authenticate(username, password) && ExistsByUsername(runnerRepository.rows, username) ==>
        exists r :: r in runnerRepository.rows && r.username == username && res == Ok(generateToken(username, r.role))
    {
      if !authenticate(username, password) {
        return Err(BadCredentials);
      }
      var found := FindByUsername(runnerRepository.rows, username);
      if found.None? {
        return Err(NotFound("User not found"));
      }
      var runner := found.value;
      res := Ok(generateToken(runner.username, runner.role));
    }
  }

  /** With usernames unique, the login token carries the role of the one
      runner registered under that username. */
  lemma LoginRoleIsStoredRole(rows: seq<Runner>, k: nat)
    requires UniqueUsernames(rows) && k < |rows|
    ensures forall r :: r in rows && r.username == rows[k].username ==> r.role == rows[k].role
  {
    forall r | r in rows && r.username == rows[k].username ensures r.role == rows[k].role {
      var i :| 0 <= i < |rows| && rows[i] == r;
      assert i == k;
    }
  }
}
