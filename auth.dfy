/**
 * The credentials sign-in and the two callbacks that carry the signed-in
 * user's id and role from the sign-in to the token and from the token to
 * every session.
 */
module Auth {
  import opened Basics
  import opened Domain
  import opened Db

  /** What `authorize` hands to the session machinery: no password. */
  datatype AuthUser = AuthUser(id: Id, email: string, name: string, role: Role)

  /**
   * `authorize`. Missing credentials are "". `matches(plain, hash)` is the
   * bcrypt comparison; `dbFails` stands for the lookup throwing, which the
   * catch turns into a refusal.
   */
  function Authorize(users: seq<User>, email: string, password: string,
                     matches: (string, string) -> bool, dbFails: bool): (r: Option<AuthUser>)
    ensures email == "" || password == "" || dbFails ==> r.None?
    ensures r.Some? ==> exists u :: u in users && u.email == email && matches(password, u.password)
                                    && r.value == AuthUser(u.id, u.email, u.name, u.role)
    ensures Distinct(users, UserEmail) && email != "" && password != "" && !dbFails ==>
      (r.Some? <==> exists u :: u in users && u.email == email && matches(password, u.password))
  {
    if email == "" || password == "" then None
    else if dbFails then None
    else
      match Find(users, (u: User) => u.email == email)
      case None => None
      case Some(u) =>
        if !matches(password, u.password) then None
        else Some(AuthUser(u.id, u.email, u.name, u.role))
  }

  /** The JWT: id and role are set by the callback; name and e-mail by the library at sign-in. */
  class Token {
    var id: Option<Id>
    var name: Option<string>
    var email: Option<string>
    var role: Option<Role>

    constructor (name: Option<string>, email: Option<string>)
      ensures this.id == None && this.role == None
      ensures this.name == name && this.email == email
    {
      this.id := None;
      this.role := None;
      this.name := name;
      this.email := email;
    }
  }

  /** `session.user` as the client and the routes read it. */
  class SessionUser {
    var id: Option<Id>
    var name: Option<string>
    var email: Option<string>
    var role: Option<Role>

    constructor ()
      ensures id == None && name == None && email == None && role == None
    {
      id, name, email, role := None, None, None, None;
    }
  }

  /** The `jwt` callback: a sign-in stamps the user's id and role on the token. */
  method Jwt(token: Token, user: Option<AuthUser>)
    modifies token
    ensures user.Some? ==> token.id == Some(user.value.id) && token.role == Some(user.value.role)
    ensures token.name == old(token.name) && token.email == old(token.email)
    ensures user.None? ==> unchanged(token)
  {
    if user.Some? {
      token.id := Some(user.value.id);
      token.role := Some(user.value.role);
    }
  }

  /** The `session` callback: the token's four claims become the session's user. */
  method SessionFromToken(session: SessionUser, token: Token)
    modifies session
    ensures session.id == token.id && session.name == token.name
    ensures session.email == token.email && session.role == token.role
  {
    session.id := token.id;
    session.name := token.name;
    session.email := token.email;
    session.role := token.role;
  }

  /**
   * The session the routes see after a sign-in with these credentials: the
   * account's id, name, e-mail and role, exactly when `authorize` accepts.
   */
  method SignIn(users: seq<User>, email: string, password: string,
                matches: (string, string) -> bool, dbFails: bool)
    returns (session: Option<Session>)
    ensures session.None? <==> Authorize(users, email, password, matches, dbFails).None?
    ensures session.Some? ==>
      var u := Authorize(users, email, password, matches, dbFails).value;
      session.value == Session(u.id, u.name, u.email, u.role)
  {
    var user := Authorize(users, email, password, matches, dbFails);
    if user.None? {
      return None;
    }
    var token := new Token(Some(user.value.name), Some(user.value.email));
    Jwt(token, user);
    var s := new SessionUser();
    SessionFromToken(s, token);
    return Some(Session(s.id.value, s.name.value, s.email.value, s.role.value));
  }
}
