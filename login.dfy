/** Logging in: the credential check, the session write and the public
    projection sent back; and reading the session back. */
module Login {
  import opened Basics
  import opened JsValues
  import opened Http
  import opened UserModel

  const InvalidCredentials: Response<PublicUser> := Response(401, Text("Invalid credentials!"))

  /** The session record written on success: identifier, name and admin flag. */
  function SessionOf(p: PublicUser): (s: SessionUser)
    ensures s.id == p.id && s.username == p.username && s.isAdmin == p.isAdmin
  {
    SessionUser(p.id, p.username, p.isAdmin)
  }

  /** Whether `password` is accepted for the account named `username`;
      `verify` stands for the hashing library's check against the stored hash. */
  predicate Accepts(users: map<Id, User>, username: string, password: Json, verify: (string, string) -> bool)
  {
    exists id :: id in users && users[id].username == username && password.Str? && verify(users[id].password, password.s)
  }

  /** POST /api/users/login. The name is looked up exactly as sent; an unknown name
      and a wrong password get the same answer, and only success touches
      the session. */
  method Login(username: string, password: Json, users: map<Id, User>, verify: (string, string) -> bool,
               session: Option<SessionUser>)
    returns (resp: Response<PublicUser>, session': Option<SessionUser>)
    requires UniqueUsernames(users)
    ensures resp.status != 200 ==> session' == session
    ensures !UsernameTaken(users, username) ==> resp == InvalidCredentials
    ensures UsernameTaken(users, username) && !password.Str? ==> resp == Response(500, Text("Server error during login"))
    ensures password.Str? && !Accepts(users, username, password, verify) ==> resp == InvalidCredentials
    ensures resp.status == 401 ==> resp == InvalidCredentials
    ensures resp.status == 200 <==> Accepts(users, username, password, verify)
    ensures resp.status == 200 ==>
              && resp.body.Payload?
              && resp.body.value.id in users
              && resp.body.value == Public(resp.body.value.id, users[resp.body.value.id])
              && resp.body.value.username == username
              && session' == Some(SessionOf(resp.body.value))
  {
    session' := session;
    if !UsernameTaken(users, username) {
      return InvalidCredentials, session';
    }
    var id :| id in users && users[id].username == username;
    var user := users[id];
    if !password.Str? {
      return Response(500, Text("Server error during login")), session';
    }
    if !verify(user.password, password.s) {
      return InvalidCredentials, session';
    }
    var p := Public(id, user);
    session' := Some(SessionOf(p));
    resp := Response(200, Payload(p));
  }

  /** GET /api/users/session: the stored session user, as it was written. */
  function GetSession(session: Option<SessionUser>): (r: Response<Option<SessionUser>>)
    ensures r.status == 200
    ensures r.body == Payload(session)
  {
    Response(200, Payload(session))
  }
}
