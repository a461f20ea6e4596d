/**
 * `/api/users`: the leader-only user directory (GET) and the leader-only
 * account creation (POST). Neither response carries a password.
 */
module UsersRoute {
  import opened Basics
  import opened Domain
  import opened Db

  /** The columns the route selects: a user without the password. */
  datatype PublicUser = PublicUser(id: Id, name: string, email: string, role: Role, createdAt: Time)

  function Public(u: User): (r: PublicUser)
    ensures r.id == u.id && r.name == u.name && r.email == u.email && r.role == u.role && r.createdAt == u.createdAt
  {
    PublicUser(u.id, u.name, u.email, u.role, u.createdAt)
  }

  // ---------------------------------------------------------------------
  // `orderBy: { name: "asc" }`, as code-unit lexicographic order
  // ---------------------------------------------------------------------

  /** `a` sorts no later than `b`: a prefix first, otherwise by the first differing character. */
  predicate LexLe(a: string, b: string)
    decreases |a|
  {
    a == [] || (b != [] && (a[0] < b[0] || (a[0] == b[0] && LexLe(a[1..], b[1..]))))
  }

  lemma {:induction false} LexTotal(a: string, b: string)
    ensures LexLe(a, b) || LexLe(b, a)
    decreases |a|
  {
    if a != [] && b != [] && a[0] == b[0] {
      LexTotal(a[1..], b[1..]);
    }
  }

  lemma {:induction false} LexTransitive(a: string, b: string, c: string)
    requires LexLe(a, b) && LexLe(b, c)
    ensures LexLe(a, c)
    decreases |a|
  {
    if a != [] && b != [] && c != [] && a[0] == b[0] == c[0] {
      LexTransitive(a[1..], b[1..], c[1..]);
    }
  }

  lemma {:induction false} LexAntisymmetric(a: string, b: string)
    requires LexLe(a, b) && LexLe(b, a)
    ensures a == b
    decreases |a|
  {
    if a != [] {
      LexAntisymmetric(a[1..], b[1..]);
      assert a == [a[0]] + a[1..] && b == [b[0]] + b[1..];
    }
  }

  predicate ByName(u: PublicUser, v: PublicUser) {
    LexLe(u.name, v.name)
  }

  lemma ByNameIsPreorder()
    ensures TotalPreorder(ByName)
  {
    forall u: PublicUser, v: PublicUser ensures ByName(u, v) || ByName(v, u) {
      LexTotal(u.name, v.name);
    }
    forall u: PublicUser, v: PublicUser, w: PublicUser | ByName(u, v) && ByName(v, w) ensures ByName(u, w) {
      LexTransitive(u.name, v.name, w.name);
    }
  }

  function Directory(users: seq<User>): (r: seq<PublicUser>)
    ensures |r| == |users|
    ensures forall i :: 0 <= i < |users| ==> r[i] == Public(users[i])
  {
    seq(|users|, i requires 0 <= i < |users| => Public(users[i]))
  }

  /** GET /api/users. */
  function ListUsers(users: seq<User>, session: Option<Session>): (r: Result<seq<PublicUser>>)
    ensures session.None? ==> r == Err(Unauthorized)
    ensures session.Some? && session.value.role != LEADER ==> r == Err(Forbidden)
    ensures session.Some? && session.value.role == LEADER ==> r.Ok?
    ensures r.Ok? ==> multiset(r.value) == multiset(Directory(users))
    ensures r.Ok? ==> forall i, j :: 0 <= i < j < |r.value| ==> LexLe(r.value[i].name, r.value[j].name)
  {
    if session.None? then Err(Unauthorized)
    else if session.value.role != LEADER then Err(Forbidden)
    else
      ByNameIsPreorder();
      Ok(SortBy(Directory(users), ByName))
  }

  /** Every stored user appears in the directory, and nothing else does. */
  lemma DirectoryListsEveryone(users: seq<User>, caller: Session, p: PublicUser)
    requires caller.role == LEADER
    ensures p in ListUsers(users, Some(caller)).value <==> exists u :: u in users && Public(u) == p
  {
    var listed := ListUsers(users, Some(caller)).value;
    assert p in listed <==> p in multiset(listed);
    assert p in Directory(users) <==> p in multiset(Directory(users));
    if p in Directory(users) {
      var i :| 0 <= i < |users| && Directory(users)[i] == p;
      assert users[i] in users;
    }
    if u :| u in users && Public(u) == p {
      var i :| 0 <= i < |users| && users[i] == u;
      assert Directory(users)[i] == p;
    }
  }

  // ---------------------------------------------------------------------
  // POST
  // ---------------------------------------------------------------------

  /** The JSON body of POST /api/users; "" stands for an absent or empty field. */
  datatype NewUser = NewUser(name: string, email: string, password: string, role: Role)

  predicate MissingField(body: NewUser) {
    body.name == "" || body.email == "" || body.password == "" || body.role == ""
  }

  /**
   * POST /api/users. `hashed` is the bcrypt hash of `body.password`; the
   * role is stored as given.
   */
  method CreateUser(db: Store, session: Option<Session>, body: NewUser, hashed: string, userId: Id, now: Time)
    returns (r: Result<PublicUser>)
    requires db.Valid()
    requires Unused(db.users, UserKey, userId)
    modifies db`users
    ensures db.Valid()
    ensures session.None? ==> r == Err(Unauthorized)
    ensures session.Some? && session.value.role != LEADER ==> r == Err(Forbidden)
    ensures session.Some? && session.value.role == LEADER && MissingField(body) ==> r == Err(BadRequest)
    ensures session.Some? && session.value.role == LEADER && !MissingField(body) && !Unused(old(db.users), UserEmail, body.email)
      ==> r == Err(BadRequest)
    ensures r.Err? ==> unchanged(db)
    ensures r.Ok? <==> session.Some? && session.value.role == LEADER && !MissingField(body) && Unused(old(db.users), UserEmail, body.email)
    ensures r.Ok? ==>
      var u := User(userId, body.name, body.email, hashed, body.role, now);
      && db.users == old(db.users) + [u]
      && r.value == Public(u)
  {
    if session.None? {
      return Err(Unauthorized);
    }
    if session.value.role != LEADER {
      return Err(Forbidden);
    }
    if MissingField(body) {
      return Err(BadRequest);
    }
    var existing := Find(db.users, (u: User) => u.email == body.email);
    if existing.Some? {
      return Err(BadRequest);
    }
    var u := User(userId, body.name, body.email, hashed, body.role, now);
    db.CreateUser(u);
    return Ok(Public(u));
  }
}
