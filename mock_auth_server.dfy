/**
 * The development authentication server: an in-memory `users` array that only
 * `register` appends to, and five handlers that issue and check session tokens.
 *
 * Request body fields are Option<string> because a missing field is
 * `undefined` in JavaScript, and `undefined === undefined` holds: a field left
 * out is matched like any other value. The clock (`Date.now()`) and the new
 * user's id (`Date.now().toString()`) are parameters.
 */
module MockAuthServer {
  import opened Wrappers
  import opened Jwt

  const DEFAULT_SECRET: string := "supersecretkeyfordevelopment"

  /** `expiresIn: '7d'`, in seconds. */
  const SESSION_LIFETIME: int := 7 * 24 * 60 * 60

  /** `process.env.BETTER_AUTH_SECRET || 'supersecretkeyfordevelopment'`: an unset or empty variable falls back. */
  function SigningKey(env: Option<string>): (key: string)
    ensures key != []
    ensures env.Some? && env.value != [] ==> key == env.value
    ensures env.None? || env.value == [] ==> key == DEFAULT_SECRET
  {
    if env.Some? && env.value != [] then env.value else DEFAULT_SECRET
  }

  // ---------------------------------------------------------------------------
  // The Authorization header: `req.headers.authorization?.split(' ')[1]`

  /** `parts.join(' ')`. */
  function Join(parts: seq<string>): string
    requires |parts| >= 1
  {
    if |parts| == 1 then parts[0] else parts[0] + " " + Join(parts[1..])
  }

  predicate NoSpace(w: string) {
    forall i :: 0 <= i < |w| ==> w[i] != ' '
  }

  /** `s.split(' ')`: the space-free pieces between single spaces, which join back to s. */
  function Split(s: string): (parts: seq<string>)
    ensures |parts| >= 1
    ensures forall i :: 0 <= i < |parts| ==> NoSpace(parts[i])
    ensures Join(parts) == s
  {
    if s == [] then [[]]
    else
      var rest := Split(s[1..]);
      if s[0] == ' ' then
        assert Join([[]] + rest) == " " + Join(rest);
        [[]] + rest
      else
        var parts := [[s[0]] + rest[0]] + rest[1..];
        assert |rest| > 1 ==> Join(rest) == rest[0] + " " + Join(rest[1..]);
        assert |rest| > 1 ==> parts[1..] == rest[1..];
        parts
  }

  lemma {:induction false} SplitWord(w: string, tail: string)
    requires NoSpace(w)
    ensures Split(w + tail) == [w + Split(tail)[0]] + Split(tail)[1..]
    decreases |w|
  {
    if w != [] {
      assert (w + tail)[1..] == w[1..] + tail;
      SplitWord(w[1..], tail);
      var rest := Split(w[1..] + tail);
      assert Split(w + tail) == [[w[0]] + rest[0]] + rest[1..];
      assert [w[0]] + (w[1..] + Split(tail)[0]) == w + Split(tail)[0];
    } else {
      var rest := Split(tail);
      assert w + tail == tail && w + rest[0] == rest[0];
      assert [rest[0]] + rest[1..] == rest;
    }
  }

  /** Splitting undoes joining space-free words. */
  lemma {:induction false} SplitJoin(parts: seq<string>)
    requires |parts| >= 1
    requires forall i :: 0 <= i < |parts| ==> NoSpace(parts[i])
    ensures Split(Join(parts)) == parts
  {
    if |parts| == 1 {
      SplitWord(parts[0], []);
      assert parts[0] + [] == parts[0];
    } else {
      var rest := Join(parts[1..]);
      SplitJoin(parts[1..]);
      assert parts[0] + " " + rest == parts[0] + (" " + rest);
      SplitWord(parts[0], " " + rest);
      assert (" " + rest)[1..] == rest;
      assert Split(" " + rest) == [[]] + parts[1..];
      assert parts[0] + [] == parts[0];
      assert Join(parts) == parts[0] + " " + rest;
    }
  }

  /**
   * The token the verify and profile handlers read: the second space-separated
   * word of the header, where an absent header, an absent second word and an
   * empty one all count as "no token" (`!token`).
   */
  function HeaderToken(authorization: Option<string>): (token: Option<string>)
    ensures authorization.None? ==> token.None?
    ensures authorization.Some? ==>
              (token.Some? <==> |Split(authorization.value)| >= 2 && Split(authorization.value)[1] != [])
    ensures token.Some? ==> authorization.Some? && token.value == Split(authorization.value)[1]
    ensures token.Some? ==> token.value != [] && NoSpace(token.value)
  {
    match authorization
    case None => None
    case Some(header) =>
      var parts := Split(header);
      if |parts| >= 2 && parts[1] != [] then Some(parts[1]) else None
  }

  /** `Split(" " + s)` starts with an empty piece and then splits s. */
  lemma SplitLeadingSpace(s: string)
    ensures Split(" " + s) == [[]] + Split(s)
  {
    assert (" " + s)[1..] == s;
  }

  /** The first piece of a word followed by nothing or a space is that word. */
  lemma WordThenGap(w: string, rest: string)
    requires NoSpace(w)
    requires rest == [] || rest[0] == ' '
    ensures Split(w + rest)[0] == w
  {
    if rest != [] {
      assert rest == " " + rest[1..];
      SplitLeadingSpace(rest[1..]);
    }
    SplitWord(w, rest);
    assert w + [] == w;
  }

  /** A space-free first word and a single space: what follows is split on its own. */
  lemma SchemeThenTail(scheme: string, tail: string)
    requires NoSpace(scheme)
    ensures Split(scheme + " " + tail) == [scheme] + Split(tail)
  {
    SplitLeadingSpace(tail);
    SplitWord(scheme, " " + tail);
    assert scheme + " " + tail == scheme + (" " + tail);
    assert scheme + [] == scheme;
  }

  /**
   * `Bearer <token>`, or any other first word, followed by nothing or by
   * further space-separated text: the token read is the second word, and
   * neither the scheme nor what follows is looked at.
   */
  lemma BearerHeader(scheme: string, token: string, rest: string)
    requires NoSpace(scheme) && NoSpace(token) && token != []
    requires rest == [] || rest[0] == ' '
    ensures HeaderToken(Some(scheme + " " + token + rest)) == Some(token)
  {
    var header := scheme + " " + token + rest;
    assert header == scheme + " " + (token + rest);
    SchemeThenTail(scheme, token + rest);
    WordThenGap(token, rest);
  }

  /** A header of one word carries no token. */
  lemma OneWordHeader(w: string)
    requires NoSpace(w)
    ensures HeaderToken(Some(w)) == None
  {
    SplitWord(w, []);
    assert w + [] == w;
  }

  /** Two spaces after the scheme leave the second piece empty: no token, whatever follows. */
  lemma DoubleSpaceHeader(scheme: string, rest: string)
    requires NoSpace(scheme)
    ensures HeaderToken(Some(scheme + "  " + rest)) == None
  {
    assert scheme + "  " + rest == scheme + (" " + (" " + rest));
    SplitWord(scheme, " " + (" " + rest));
    SplitLeadingSpace(" " + rest);
    SplitLeadingSpace(rest);
  }

  // ---------------------------------------------------------------------------
  // Users and the three `users.find` queries

  datatype User = User(id: string, email: Option<string>, name: Option<string>, password: Option<string>, createdAt: int)

  /** The `user` object of a response: the record without its password. */
  datatype PublicUser = PublicUser(id: string, email: Option<string>, name: Option<string>)

  function Public(u: User): PublicUser {
    PublicUser(u.id, u.email, u.name)
  }

  datatype RegisterBody = RegisterBody(email: Option<string>, password: Option<string>, name: Option<string>)

  datatype LoginBody = LoginBody(email: Option<string>, password: Option<string>)

  /** The predicates the handlers pass to `users.find`. */
  datatype Query = ByEmail(email: Option<string>) | ByCredentials(email: Option<string>, password: Option<string>) | BySubject(sub: Value)

  predicate Matches(q: Query, u: User) {
    match q
    case ByEmail(e) => u.email == e
    case ByCredentials(e, p) => u.email == e && u.password == p
    case BySubject(sub) => Str(u.id) == sub
  }

  /** `users.find(q)`: the index of the first match. */
  function Find(users: seq<User>, q: Query): (r: Option<nat>)
    ensures r.Some? ==> r.value < |users| && Matches(q, users[r.value])
                        && forall j :: 0 <= j < r.value ==> !Matches(q, users[j])
    ensures r.None? ==> forall j :: 0 <= j < |users| ==> !Matches(q, users[j])
  {
    if users == [] then None
    else if Matches(q, users[0]) then Some(0)
    else match Find(users[1..], q)
      case None => None
      case Some(i) => Some(i + 1)
  }

  ghost predicate EmailTaken(users: seq<User>, email: Option<string>) {
    exists i :: 0 <= i < |users| && users[i].email == email
  }

  ghost predicate HasAccount(users: seq<User>, email: Option<string>, password: Option<string>) {
    exists i :: 0 <= i < |users| && users[i].email == email && users[i].password == password
  }

  /** No two stored users share an email. */
  ghost predicate UniqueEmails(users: seq<User>) {
    forall i, j :: 0 <= i < j < |users| ==> users[i].email != users[j].email
  }

  /** The record `register` pushes: the body's email, name and password as given (no hashing). */
  function NewUser(body: RegisterBody, id: string, now: int): (u: User)
    ensures u.id == id && u.email == body.email && u.name == body.name && u.password == body.password
    ensures u.createdAt == now
    ensures Public(u) == PublicUser(id, body.email, body.name)
  {
    User(id, body.email, body.name, body.password, now)
  }

  /** The user table after one register call: unchanged when the email is taken, one record longer otherwise. */
  function AfterRegister(users: seq<User>, body: RegisterBody, id: string, now: int): (r: seq<User>)
    ensures EmailTaken(users, body.email) ==> r == users
    ensures !EmailTaken(users, body.email) ==> r == users + [NewUser(body, id, now)]
    ensures UniqueEmails(users) ==> UniqueEmails(r)
  {
    if Find(users, ByEmail(body.email)).Some? then users else users + [NewUser(body, id, now)]
  }

  /** The calls a client can make; only a register call writes the table. */
  datatype Call =
    | RegisterCall(body: RegisterBody, id: string, now: int)
    | LoginCall(login: LoginBody, now: int)
    | VerifyCall(authorization: Option<string>, now: int)
    | ProfileCall(authorization: Option<string>, now: int)
    | LogoutCall

  function Replay(users: seq<User>, calls: seq<Call>): seq<User>
    decreases calls
  {
    if calls == [] then users
    else
      var next := if calls[0].RegisterCall? then AfterRegister(users, calls[0].body, calls[0].id, calls[0].now) else users;
      Replay(next, calls[1..])
  }

  /**
   * Over any sequence of calls the table only grows at its end and never
   * holds two users with the same email.
   */
  lemma {:induction false} ReplayKeepsEmailsUnique(users: seq<User>, calls: seq<Call>)
    requires UniqueEmails(users)
    ensures UniqueEmails(Replay(users, calls))
    ensures |users| <= |Replay(users, calls)| && Replay(users, calls)[..|users|] == users
    decreases calls
  {
    if calls != [] {
      var next := if calls[0].RegisterCall? then AfterRegister(users, calls[0].body, calls[0].id, calls[0].now) else users;
      ReplayKeepsEmailsUnique(next, calls[1..]);
      assert next[..|users|] == users;
      assert Replay(users, calls)[..|users|] == Replay(next, calls[1..])[..|next|][..|users|];
    }
  }

  // ---------------------------------------------------------------------------
  // Responses

  datatype Reply =
    | Failed(status: int, error: string)
    | Session(user: PublicUser, token: string, refreshToken: string)
    | TokenValid(valid: bool, claims: Claims)
    | Profile(profile: PublicUser)
    | LoggedOut(message: string)

  /**
   * The payload `jwt.sign({ sub, email, name }, key, { expiresIn: '7d' })`
   * signs at time now: the user's id, email and name (a field that is
   * `undefined` is dropped), the issue time and the expiry seven days later.
   */
  function SessionClaims(u: User, now: int): (c: Claims)
    ensures Get(c, "sub") == Str(u.id) && !BadExpiry(c)
    ensures Get(c, "exp") == Num(now + SESSION_LIFETIME) && Get(c, "iat") == Num(now)
    ensures ("email" in c <==> u.email.Some?) && ("name" in c <==> u.name.Some?)
    ensures u.email.Some? ==> c["email"] == Str(u.email.value)
    ensures u.name.Some? ==> c["name"] == Str(u.name.value)
    ensures c.Keys <= {"sub", "email", "name", "iat", "exp"}
  {
    var base := map["sub" := Str(u.id), "iat" := Num(now), "exp" := Num(now + SESSION_LIFETIME)];
    var withEmail := if u.email.Some? then base["email" := Str(u.email.value)] else base;
    if u.name.Some? then withEmail["name" := Str(u.name.value)] else withEmail
  }

  class AuthServer {
    /** `const users = []`, in registration order. */
    var users: seq<User>
    const key: string
    const codec: Codec

    ghost predicate Valid()
      reads this
    {
      UniqueEmails(users) && Faithful(codec)
    }

    constructor(env: Option<string>, codec: Codec)
      requires Faithful(codec)
      ensures Valid() && users == [] && key == SigningKey(env) && this.codec == codec
    {
      users := [];
      key := SigningKey(env);
      this.codec := codec;
    }

    /** The success response of register and login: the public user and one token sent twice. */
    function Issue(u: User, now: int): (reply: Reply)
      ensures reply.Session? && reply.user == Public(u) && reply.refreshToken == reply.token
      ensures Faithful(codec) ==> reply.token != [] && codec.decode(reply.token) == Some(Sign(SessionClaims(u, now), key))
    {
      var token := codec.encode(Sign(SessionClaims(u, now), key));
      Session(Public(u), token, token)
    }

    /** POST /api/auth/register */
    method Register(body: RegisterBody, id: string, now: int) returns (reply: Reply)
      requires Valid()
      modifies this
      ensures Valid()
      ensures users == AfterRegister(old(users), body, id, now)
      ensures EmailTaken(old(users), body.email) ==> reply == Failed(400, "User already exists")
      ensures !EmailTaken(old(users), body.email) ==> reply == Issue(NewUser(body, id, now), now)
    {
      var existing := Find(users, ByEmail(body.email));
      if existing.Some? {
        return Failed(400, "User already exists");
      }
      var newUser := NewUser(body, id, now);
      users := users + [newUser];
      reply := Issue(newUser, now);
    }

    /** POST /api/auth/login: the first user with exactly this email and password. */
    function Login(body: LoginBody, now: int): (reply: Reply)
      reads this
      ensures reply.Session? <==> HasAccount(users, body.email, body.password)
      ensures !reply.Session? ==> reply == Failed(401, "Invalid credentials")
      ensures reply.Session? ==> exists i :: 0 <= i < |users| && users[i].email == body.email
                                  && users[i].password == body.password && reply == Issue(users[i], now)
      ensures UniqueEmails(users) && reply.Session? ==>
                forall j :: 0 <= j < |users| && users[j].email == body.email ==> reply == Issue(users[j], now)
    {
      match Find(users, ByCredentials(body.email, body.password))
      case None => Failed(401, "Invalid credentials")
      case Some(i) => Issue(users[i], now)
    }

    /** POST /api/auth/verify: the decoded claims of an authentic, unexpired token. */
    function Verify(authorization: Option<string>, now: int): (reply: Reply)
      ensures HeaderToken(authorization).None? ==> reply == Failed(401, "No token provided")
      ensures HeaderToken(authorization).Some? ==>
                (reply.TokenValid? <==> Decode(codec, HeaderToken(authorization).value, key, now).Ok?)
      ensures reply.TokenValid? ==> reply.valid && reply.claims == Decode(codec, HeaderToken(authorization).value, key, now).value
      ensures HeaderToken(authorization).Some? && !reply.TokenValid? ==> reply == Failed(401, "Invalid token")
    {
      match HeaderToken(authorization)
      case None => Failed(401, "No token provided")
      case Some(token) =>
        match Decode(codec, token, key, now)
        case Ok(claims) => TokenValid(true, claims)
        case Err(_) => Failed(401, "Invalid token")
    }

    /** GET /api/auth/profile: the current record of the token's subject. */
    function GetProfile(authorization: Option<string>, now: int): (reply: Reply)
      reads this
      ensures HeaderToken(authorization).None? ==> reply == Failed(401, "No token provided")
      ensures HeaderToken(authorization).Some? ==>
                (Decode(codec, HeaderToken(authorization).value, key, now).Err? <==> reply == Failed(401, "Invalid token"))
      ensures HeaderToken(authorization).Some? && Decode(codec, HeaderToken(authorization).value, key, now).Ok? ==>
                var sub := Get(Decode(codec, HeaderToken(authorization).value, key, now).value, "sub");
                && (reply == Failed(404, "User not found") <==> forall i :: 0 <= i < |users| ==> Str(users[i].id) != sub)
                && (reply.Profile? <==> exists i :: 0 <= i < |users| && Str(users[i].id) == sub)
                && (reply.Profile? ==> exists i :: 0 <= i < |users| && Str(users[i].id) == sub && reply.profile == Public(users[i])
                                                   && forall j :: 0 <= j < i ==> Str(users[j].id) != sub)
    {
      match HeaderToken(authorization)
      case None => Failed(401, "No token provided")
      case Some(token) =>
        match Decode(codec, token, key, now)
        case Err(_) => Failed(401, "Invalid token")
        case Ok(claims) =>
          match Find(users, BySubject(Get(claims, "sub")))
          case None => Failed(404, "User not found")
          case Some(i) => Profile(Public(users[i]))
    }

    /** POST /api/auth/logout: nothing is invalidated. */
    function Logout(): (reply: Reply)
      ensures reply == LoggedOut("Logged out successfully")
    {
      LoggedOut("Logged out successfully")
    }
  }

  /**
   * A session token is the same string in both response fields, decodes to
   * the session claims for seven days after issue, and is Expired from then on.
   */
  lemma IssuedTokenLifetime(s: AuthServer, u: User, now: int, t: int)
    requires Faithful(s.codec)
    ensures s.Issue(u, now).refreshToken == s.Issue(u, now).token
    ensures s.Issue(u, now).user == PublicUser(u.id, u.email, u.name)
    ensures Decode(s.codec, s.Issue(u, now).token, s.key, t)
            == if t < now + SESSION_LIFETIME then Ok(SessionClaims(u, now)) else Err(Expired)
  {
    SignThenDecode(s.codec, SessionClaims(u, now), s.key, t);
  }

  /**
   * Register, then present the returned token: until it expires, login with
   * the same credentials succeeds and the profile is the new user's (provided
   * no earlier user was given the same id).
   */
  lemma RegisterThenUseToken(s: AuthServer, prior: seq<User>, body: RegisterBody, id: string, now: int,
                             scheme: string, t: int)
    requires Faithful(s.codec) && NoSpace(scheme)
    requires !EmailTaken(prior, body.email)
    requires forall i :: 0 <= i < |prior| ==> prior[i].id != id
    requires s.users == AfterRegister(prior, body, id, now)
    requires now <= t < now + SESSION_LIFETIME
    ensures s.Login(LoginBody(body.email, body.password), t).Session?
    ensures s.GetProfile(Some(scheme + " " + s.Issue(NewUser(body, id, now), now).token), t)
            == Profile(PublicUser(id, body.email, body.name))
  {
    var u := NewUser(body, id, now);
    var token := s.Issue(u, now).token;
    assert s.users[|prior|] == u;
    var tok := Sign(SessionClaims(u, now), s.key);
    assert s.codec.decode(s.codec.encode(tok)) == Some(tok);
    BearerHeader(scheme, token, []);
    assert scheme + " " + token + [] == scheme + " " + token;
    IssuedTokenLifetime(s, u, now, t);
    var f := Find(s.users, BySubject(Str(id)));
    assert Matches(BySubject(Str(id)), s.users[|prior|]);
    assert f.Some? && f.value == |prior|;
  }

  /**
   * The token a register or login reply carries, sent back as
   * `<scheme> <token>`, is answered `{ valid: true, user: claims }` with the
   * session claims until seven days after issue.
   */
  lemma SessionTokenVerifies(s: AuthServer, u: User, issued: int, scheme: string, t: int)
    requires Faithful(s.codec) && NoSpace(scheme)
    requires t < issued + SESSION_LIFETIME
    ensures s.Verify(Some(scheme + " " + s.Issue(u, issued).token), t) == TokenValid(true, SessionClaims(u, issued))
  {
    var token := s.Issue(u, issued).token;
    BearerHeader(scheme, token, []);
    assert scheme + " " + token + [] == scheme + " " + token;
    IssuedTokenLifetime(s, u, issued, t);
  }
}
