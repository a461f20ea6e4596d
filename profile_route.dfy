/**
 * `/api/users/profile`: the signed-in user changes their name and e-mail,
 * and their password when they also give the current one.
 */
module ProfileRoute {
  import opened Basics
  import opened Domain
  import opened Db

  /** The JSON body; "" stands for an absent or empty field. */
  datatype ProfileChange = ProfileChange(name: string, email: string, currentPassword: string, newPassword: string)

  /** The response: the updated row without its password. */
  datatype Profile = Profile(id: Id, name: string, email: string)

  function FindUser(users: seq<User>, id: Id): (r: Option<User>)
    ensures r.None? <==> Unused(users, UserKey, id)
    ensures r.Some? ==> r.value in users && r.value.id == id
  {
    Find(users, (u: User) => u.id == id)
  }

  /** Some user other than `id` already has `email`. */
  predicate EmailTaken(users: seq<User>, id: Id, email: string) {
    exists i :: 0 <= i < |users| && users[i].id != id && users[i].email == email
  }

  /**
   * PATCH /api/users/profile. `matches(plain, hash)` is the bcrypt
   * comparison and `newHash` the hash of `body.newPassword`. Writing an
   * e-mail another account holds breaks the unique column; the route's
   * catch turns that into a 500.
   */
  method UpdateProfile(
    db: Store, session: Option<Session>, body: ProfileChange,
    matches: (string, string) -> bool, newHash: string)
    returns (r: Result<Profile>)
    requires db.Valid()
    modifies db`users
    ensures db.Valid()
    ensures session.None? ==> r == Err(Unauthorized)
    ensures session.Some? && (body.name == "" || body.email == "") ==> r == Err(BadRequest)
    ensures session.Some? && body.name != "" && body.email != "" ==>
      (r == Err(NotFound) <==> Unused(old(db.users), UserKey, session.value.id))
    ensures r.Err? ==> unchanged(db)
    ensures r.Ok? ==> session.Some? && body.name != "" && body.email != ""
    ensures r.Ok? && body.newPassword != "" ==>
      body.currentPassword != "" &&
      exists u :: u in old(db.users) && u.id == session.value.id && matches(body.currentPassword, u.password)
    ensures r.Ok? ==>
      var me := FindUser(old(db.users), session.value.id);
      && me.Some?
      && !EmailTaken(old(db.users), session.value.id, body.email)
      && db.users == WithProfile(old(db.users), session.value.id, body.name, body.email,
                                 if body.newPassword != "" then newHash else me.value.password)
      && r.value == Profile(session.value.id, body.name, body.email)
    ensures session.Some? && body.name != "" && body.email != "" && !Unused(old(db.users), UserKey, session.value.id) ==>
      var me := FindUser(old(db.users), session.value.id).value;
      && (body.newPassword != "" && body.currentPassword == "" ==> r == Err(BadRequest))
      && (body.newPassword != "" && body.currentPassword != "" && !matches(body.currentPassword, me.password) ==> r == Err(BadRequest))
      && (body.newPassword == "" || (body.currentPassword != "" && matches(body.currentPassword, me.password)) ==>
            (r.Ok? <==> !EmailTaken(old(db.users), session.value.id, body.email)))
  {
    if session.None? {
      return Err(Unauthorized);
    }
    var callerId := session.value.id;
    if body.name == "" || body.email == "" {
      return Err(BadRequest);
    }
    var me := FindUser(db.users, callerId);
    if me.None? {
      return Err(NotFound);
    }
    var user := me.value;
    if body.newPassword != "" {
      if body.currentPassword == "" {
        return Err(BadRequest);
      }
      if !matches(body.currentPassword, user.password) {
        return Err(BadRequest);
      }
    }
    if EmailTaken(db.users, callerId, body.email) {
      return Err(ServerError);
    }
    var password := if body.newPassword != "" then newHash else user.password;
    db.UpdateUser(callerId, body.name, body.email, password);
    return Ok(Profile(callerId, body.name, body.email));
  }

  /**
   * Without a new password the stored hash stays, and every other account
   * is untouched.
   */
  lemma ProfileKeepsPassword(users: seq<User>, id: Id, name: string, email: string, i: nat)
    requires Distinct(users, UserKey) && i < |users|
    ensures users[i].id != id ==> WithProfile(users, id, name, email, users[i].password)[i] == users[i]
    ensures users[i].id == id ==>
      var me := FindUser(users, id).value;
      WithProfile(users, id, name, email, me.password)[i].password == users[i].password
  {
    if users[i].id == id {
      var me := FindUser(users, id).value;
      var j :| 0 <= j < |users| && users[j] == me;
      assert users[j].id == users[i].id;
    }
  }
}
