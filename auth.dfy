/** Registration and login over the user map keyed by email. The uuid parts
    of ids and tokens and the creation time are inputs. */
module Auth {
  import opened Types
  import opened Text

  datatype RegisterRequest = RegisterRequest(
    firstName: string,
    lastName: string,
    email: string,
    password: string,
    phone: Option<string>)

  datatype LoginRequest = LoginRequest(email: string, password: string)

  datatype Tokens = Tokens(accessToken: string, refreshToken: string, expiresIn: int)

  /** The two `uuid4().hex[:16]` suffixes of a token pair. */
  datatype TokenSuffixes = TokenSuffixes(access: string, refresh: string)

  datatype AuthResponse = AuthResponse(user: User, tokens: Tokens)

  /** The user map after a registration attempt, and the answer. */
  datatype Registration = Registration(users: map<string, User>, response: Result<AuthResponse>)

  const TokenLifetimeSeconds: int := 3600
  /** The only passwords login accepts, for every stored user; nothing is stored per user. */
  const AcceptedPasswords: set<string> := {"password123", "demo123"}

  /** `generate_tokens`: an access and a refresh token, both naming the user, that
      never coincide, valid for an hour. */
  function GenerateTokens(userId: string, suffixes: TokenSuffixes): (t: Tokens)
    ensures IsPrefix("access-token-" + userId + "-", t.accessToken)
    ensures IsPrefix("refresh-token-" + userId + "-", t.refreshToken)
    ensures t.accessToken != t.refreshToken
    ensures t.expiresIn == TokenLifetimeSeconds
  {
    assert ("access-token-" + userId + "-" + suffixes.access)[0] == 'a';
    assert ("refresh-token-" + userId + "-" + suffixes.refresh)[0] == 'r';
    Tokens(
      "access-token-" + userId + "-" + suffixes.access,
      "refresh-token-" + userId + "-" + suffixes.refresh,
      TokenLifetimeSeconds)
  }

  /** Each stored user sits under its own email. */
  predicate KeyedByEmail(users: map<string, User>)
  {
    forall e :: e in users ==> users[e].email == e
  }

  /** The two users present at start-up. */
  function SeedUsers(): (users: map<string, User>)
    ensures KeyedByEmail(users)
    ensures users.Keys == {"test@example.com", "demo@rq.app"}
  {
    map[
      "test@example.com" := User(
        "user-123", "טסט", "משתמש", "test@example.com", Some("+972501234567"),
        Premium, ["תל אביב", "רמת גן"], "2025-01-01T00:00:00Z"),
      "demo@rq.app" := User(
        "user-456", "דמו", "המשתמש", "demo@rq.app", None,
        Free, [], "2025-01-01T00:00:00Z")]
  }

  function NewUser(req: RegisterRequest, userHex: string, createdAt: string): User
  {
    User("user-" + userHex, req.firstName, req.lastName, req.email, req.phone, Free, [], createdAt)
  }

  /** `POST auth/register`: 409 for a known email with the map untouched; otherwise
      the map gains exactly the new email, bound to a free user without preferred locations. */
  function Register(
    users: map<string, User>, req: RegisterRequest,
    userHex: string, createdAt: string, suffixes: TokenSuffixes): (r: Registration)
    ensures r.response.Err? <==> req.email in users
    ensures r.response.Err? ==> r.response.error == Conflict && r.users == users
    ensures r.response.Ok? ==>
      && r.users.Keys == users.Keys + {req.email}
      && r.users[req.email] == r.response.value.user
      && (forall e :: e in users ==> r.users[e] == users[e])
    ensures r.response.Ok? ==>
      var u := r.response.value.user;
      && u.email == req.email && u.firstName == req.firstName && u.lastName == req.lastName
      && u.phone == req.phone && u.subscriptionTier == Free && u.preferredLocations == []
      && u.id == "user-" + userHex && u.createdAt == createdAt
      && r.response.value.tokens == GenerateTokens(u.id, suffixes)
  {
    if req.email in users then Registration(users, Err(Conflict))
    else
      var user := NewUser(req, userHex, createdAt);
      Registration(users[req.email := user], Ok(AuthResponse(user, GenerateTokens(user.id, suffixes))))
  }

  /** `POST auth/login`: succeeds exactly for a stored email with one of the two
      accepted passwords, and answers with the stored user. */
  function Login(users: map<string, User>, req: LoginRequest, suffixes: TokenSuffixes): (r: Result<AuthResponse>)
    ensures r.Ok? <==> req.email in users && req.password in AcceptedPasswords
    ensures r.Err? ==> r.error == Unauthorized
    ensures r.Ok? ==> r.value.user == users[req.email]
    ensures r.Ok? ==> r.value.tokens == GenerateTokens(users[req.email].id, suffixes)
  {
    if req.email !in users || req.password !in AcceptedPasswords then Err(Unauthorized)
    else Ok(AuthResponse(users[req.email], GenerateTokens(users[req.email].id, suffixes)))
  }

  /** Registration keeps every user under its own email. */
  lemma RegisterKeepsKeyedByEmail(
    users: map<string, User>, req: RegisterRequest,
    userHex: string, createdAt: string, suffixes: TokenSuffixes)
    requires KeyedByEmail(users)
    ensures KeyedByEmail(Register(users, req, userHex, createdAt, suffixes).users)
  {
  }

  /** Registering the same email twice: the first succeeds, the second answers 409
      and leaves the map as the first left it. */
  lemma RegisterTwiceConflicts(
    users: map<string, User>, first: RegisterRequest, second: RegisterRequest,
    userHex1: string, createdAt1: string, suffixes1: TokenSuffixes,
    userHex2: string, createdAt2: string, suffixes2: TokenSuffixes)
    requires first.email !in users && second.email == first.email
    ensures var r1 := Register(users, first, userHex1, createdAt1, suffixes1);
            var r2 := Register(r1.users, second, userHex2, createdAt2, suffixes2);
            r1.response.Ok? && r2.response == Err(Conflict) && r2.users == r1.users
  {
  }

  /** A freshly registered user can log in with an accepted password, whatever
      password was given at registration, and gets the registered record back. */
  lemma LoginAfterRegister(
    users: map<string, User>, req: RegisterRequest,
    userHex: string, createdAt: string, suffixes: TokenSuffixes,
    password: string, loginSuffixes: TokenSuffixes)
    requires req.email !in users
    requires password in AcceptedPasswords
    ensures var reg := Register(users, req, userHex, createdAt, suffixes);
            var r := Login(reg.users, LoginRequest(req.email, password), loginSuffixes);
            r.Ok? && r.value.user == reg.response.value.user
  {
  }

  /** The seeded account logs in with "password123" and is refused with "wrongpass";
      an unknown email is refused with any password. */
  lemma SeedLogins(suffixes: TokenSuffixes, password: string)
    ensures Login(SeedUsers(), LoginRequest("test@example.com", "password123"), suffixes).Ok?
    ensures Login(SeedUsers(), LoginRequest("test@example.com", "wrongpass"), suffixes) == Err(Unauthorized)
    ensures Login(SeedUsers(), LoginRequest("nobody@example.com", password), suffixes) == Err(Unauthorized)
  {
  }
}
