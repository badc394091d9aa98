/**
 * Registration and login: the users table, the credential check, the claim
 * set a token signs, and the login reply. Password hashing, password
 * verification and token signing are function parameters the model does not
 * look inside; the clock is the parameter `now`, in microseconds.
 */
module Auth {
  import opened Outcomes

  /** A row of the users table. */
  datatype User = User(
    id: int,
    email: string,
    username: string,
    firstName: string,
    lastName: string,
    hashedPassword: string,
    isActive: bool,
    role: string)

  /** The body of a registration request. */
  datatype UserRequest = UserRequest(
    email: string,
    username: string,
    firstName: string,
    lastName: string,
    password: string,
    role: string)

  const MinEmailLength: nat := 3

  /** The only field constraint of a registration body: the email has at least 3 characters. */
  predicate ValidUserRequest(req: UserRequest) {
    |req.email| >= MinEmailLength
  }

  /**
   * Filtering the users table on the username and taking the first row: the
   * position of the earliest row (in insertion order) with that username.
   */
  function FirstIndex(users: seq<User>, username: string): (r: Option<nat>)
    ensures r.None? <==> forall i | 0 <= i < |users| :: users[i].username != username
    ensures r.Some? ==> r.value < |users| && users[r.value].username == username
    ensures r.Some? ==> forall j | 0 <= j < r.value :: users[j].username != username
    decreases |users|
  {
    if |users| == 0 then None
    else if users[0].username == username then Some(0)
    else match FirstIndex(users[1..], username)
      case None => None
      case Some(i) => Some(i + 1)
  }

  /**
   * The credential check: nothing when no row has the username; nothing when
   * `verify` rejects the password against the stored hash of the first such
   * row; that row otherwise.
   */
  function Authenticate(users: seq<User>, username: string, password: string, verify: (string, string) -> bool): (r: Option<User>)
    ensures (forall i | 0 <= i < |users| :: users[i].username != username) ==> r == None
    ensures r.Some? ==> r.value.username == username && verify(password, r.value.hashedPassword)
    ensures r.Some? <==> FirstIndex(users, username).Some? && verify(password, users[FirstIndex(users, username).value].hashedPassword)
    ensures r.Some? ==> r.value == users[FirstIndex(users, username).value]
  {
    match FirstIndex(users, username)
    case None => None
    case Some(i) => if verify(password, users[i].hashedPassword) then Some(users[i]) else None
  }

  /** A claim value: a string, an integer, or an instant in microseconds. */
  datatype ClaimValue = Text(text: string) | Number(number: int) | Instant(micros: int)

  type Claims = map<string, ClaimValue>

  /**
   * The claim set an access token signs: exactly a subject, an id and an
   * expiry `expiresDelta` after `now`.
   */
  function AccessClaims(username: string, userId: int, expiresDelta: int, now: int): (c: Claims)
    ensures c.Keys == {"sub", "id", "exp"}
    ensures c["sub"] == Text(username) && c["id"] == Number(userId) && c["exp"] == Instant(now + expiresDelta)
  {
    var encode := map["sub" := Text(username), "id" := Number(userId)];
    var expires := now + expiresDelta;
    encode["exp" := Instant(expires)]
  }

  /** What a reader of a claim set recovers: subject, id and expiry, when all three are present and typed. */
  function ReadClaims(c: Claims): Option<(string, int, int)> {
    if "sub" in c && "id" in c && "exp" in c && c["sub"].Text? && c["id"].Number? && c["exp"].Instant?
    then Some((c["sub"].text, c["id"].number, c["exp"].micros))
    else None
  }

  /** The access token: `sign` applied to the claim set. */
  function CreateAccessToken(username: string, userId: int, expiresDelta: int, now: int, sign: Claims -> string): string {
    sign(AccessClaims(username, userId, expiresDelta, now))
  }

  /** A token's claim set gives back exactly the identity and expiry it was built from. */
  lemma ClaimsRoundTrip(username: string, userId: int, expiresDelta: int, now: int)
    ensures ReadClaims(AccessClaims(username, userId, expiresDelta, now)) == Some((username, userId, now + expiresDelta))
  {
  }

  /** The lifetime of a login token: twenty minutes, in microseconds. */
  const LoginTokenLifetime: int := 20 * 60 * 1_000_000

  const FailAuth: string := "Fail Auth"
  const BearerType: string := "bearer"

  /** What the login handler returns: a bare string, or a token body. */
  datatype LoginReply = Message(text: string) | TokenBody(accessToken: string, tokenType: string)

  /**
   * The login handler: the string "Fail Auth" (not an error status) when the
   * credential check fails; otherwise a bearer token for the authenticated
   * user's username and id, expiring twenty minutes after `now`.
   */
  function LoginForAccessToken(users: seq<User>, username: string, password: string,
                               verify: (string, string) -> bool, sign: Claims -> string, now: int): (r: LoginReply)
    ensures r == Message(FailAuth) <==> Authenticate(users, username, password, verify).None?
    ensures r.TokenBody? <==> Authenticate(users, username, password, verify).Some?
    ensures r.TokenBody? ==> r.tokenType == BearerType
    ensures r.TokenBody? ==>
      var u := Authenticate(users, username, password, verify).value;
      r.accessToken == sign(AccessClaims(u.username, u.id, LoginTokenLifetime, now))
  {
    var user := Authenticate(users, username, password, verify);
    if user.None? then Message(FailAuth)
    else
      var token := CreateAccessToken(user.value.username, user.value.id, LoginTokenLifetime, now, sign);
      TokenBody(token, BearerType)
  }

  /** The row create_user builds: the request's fields, the password only through `hash`, active. */
  function NewUser(id: int, req: UserRequest, hash: string -> string): User {
    User(id, req.email, req.username, req.firstName, req.lastName, hash(req.password), true, req.role)
  }

  /** The users table after a registration: one row appended, under the next key. */
  function Registered(users: seq<User>, req: UserRequest, hash: string -> string): seq<User> {
    users + [NewUser(|users| + 1, req, hash)]
  }

  /** The users table, rows in insertion order. */
  class UserStore {
    var users: seq<User>

    /** Row keys are handed out in order from 1. */
    ghost predicate Valid()
      reads this
    {
      forall i | 0 <= i < |users| :: users[i].id == i + 1
    }

    constructor ()
      ensures Valid() && users == []
    {
      users := [];
    }

    /**
     * POST /auth: 422 when the email is shorter than 3 characters; otherwise
     * one row appended with the request's fields, the hash of the password in
     * place of the password, and the active flag set. No check is made that
     * the username or the email is new; the table is taken to have no
     * unique constraint that would make the commit fail.
     */
    method CreateUser(req: UserRequest, hash: string -> string) returns (r: Result<()>)
      requires Valid()
      modifies this
      ensures Valid()
      ensures r.Ok? <==> ValidUserRequest(req)
      ensures r.Err? ==> r.error == Unprocessable && users == old(users)
      ensures r.Ok? ==> users == Registered(old(users), req, hash)
      ensures r.Ok? ==> users[..|old(users)|] == old(users) && |users| == |old(users)| + 1
      ensures r.Ok? ==> forall i | 0 <= i < |old(users)| :: users[i].id != users[|old(users)|].id
      ensures r.Ok? ==>
        users[|old(users)|] == User(|old(users)| + 1, req.email, req.username, req.firstName, req.lastName, hash(req.password), true, req.role)
    {
      if !ValidUserRequest(req) {
        return Err(Unprocessable);
      }
      var userModel := NewUser(|users| + 1, req, hash);
      users := users + [userModel];
      r := Ok(());
    }
  }

  /** Appending a row changes the first match only when there was none before. */
  lemma {:induction false} FirstIndexAfterAppend(users: seq<User>, u: User, username: string)
    ensures FirstIndex(users + [u], username) ==
      if FirstIndex(users, username).Some? then FirstIndex(users, username)
      else if u.username == username then Some(|users|)
      else None
  {
    var all := users + [u];
    assert forall i | 0 <= i < |users| :: all[i] == users[i];
    match FirstIndex(users, username)
    case Some(i) =>
      assert all[i].username == username;
      assert forall k | 0 <= k < i :: all[k].username != username;
    case None =>
      if u.username == username {
        assert all[|users|].username == username;
      } else {
        assert forall k | 0 <= k < |all| :: all[k].username != username;
      }
  }

  /**
   * Registering under a username no row has, then logging in with the same
   * password, yields a bearer token for the new row's username and id,
   * provided `verify` accepts the password against its own hash.
   */
  lemma RegisterThenLogin(users: seq<User>, req: UserRequest, hash: string -> string,
                          verify: (string, string) -> bool, sign: Claims -> string, now: int)
    requires forall i | 0 <= i < |users| :: users[i].username != req.username
    requires verify(req.password, hash(req.password))
    ensures LoginForAccessToken(Registered(users, req, hash), req.username, req.password, verify, sign, now)
         == TokenBody(sign(AccessClaims(req.username, |users| + 1, LoginTokenLifetime, now)), BearerType)
  {
    FirstIndexAfterAppend(users, NewUser(|users| + 1, req, hash), req.username);
  }

  /**
   * Registering under a fresh username, then logging in with a password that
   * `verify` rejects against the stored hash, yields "Fail Auth".
   */
  lemma RegisterThenWrongPassword(users: seq<User>, req: UserRequest, password: string, hash: string -> string,
                                  verify: (string, string) -> bool, sign: Claims -> string, now: int)
    requires forall i | 0 <= i < |users| :: users[i].username != req.username
    requires !verify(password, hash(req.password))
    ensures LoginForAccessToken(Registered(users, req, hash), req.username, password, verify, sign, now) == Message(FailAuth)
  {
  }

  /**
   * With no uniqueness check, registering a username that is already taken
   * adds a row the credential check never reaches: logging in under that
   * username still checks against, and returns, the earlier row. This holds
   * when the users table itself does not declare the username unique; with
   * such a constraint the second commit fails and no row is added.
   */
  lemma DuplicateRegistrationShadowed(users: seq<User>, req: UserRequest, password: string, hash: string -> string,
                                      verify: (string, string) -> bool)
    requires exists i | 0 <= i < |users| :: users[i].username == req.username
    ensures |Registered(users, req, hash)| == |users| + 1
    ensures Authenticate(Registered(users, req, hash), req.username, password, verify)
         == Authenticate(users, req.username, password, verify)
  {
    var all := Registered(users, req, hash);
    FirstIndexAfterAppend(users, NewUser(|users| + 1, req, hash), req.username);
    assert forall i | 0 <= i < |users| :: all[i] == users[i];
  }

  /** When no row has the username, the credential check fails whatever `verify` would answer. */
  lemma UnknownUserSkipsVerify(users: seq<User>, username: string, password: string,
                               verify1: (string, string) -> bool, verify2: (string, string) -> bool)
    requires forall i | 0 <= i < |users| :: users[i].username != username
    ensures Authenticate(users, username, password, verify1) == None
    ensures Authenticate(users, username, password, verify1) == Authenticate(users, username, password, verify2)
  {
  }

  /**
   * The stored row depends on the password only through its hash: two
   * registrations that differ only in passwords with equal hashes store the
   * same row.
   */
  lemma StoredRowSeesOnlyHash(id: int, req1: UserRequest, req2: UserRequest, hash: string -> string)
    requires req1.(password := req2.password) == req2
    requires hash(req1.password) == hash(req2.password)
    ensures NewUser(id, req1, hash) == NewUser(id, req2, hash)
    ensures NewUser(id, req1, hash).hashedPassword == hash(req1.password) && NewUser(id, req1, hash).isActive
  {
  }
}
