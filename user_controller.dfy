/** The admin-only user management handlers: list, change the admin flag, delete. */
module UserController {
  import opened Basics
  import opened JsValues
  import opened Http
  import opened UserModel

  /** GET /api/users: every account, without its password. */
  function ListUsers(users: map<Id, User>): (r: Response<map<Id, PublicUser>>)
    ensures r.status == 200 && r.body.Payload?
    ensures r.body.value.Keys == users.Keys
    ensures forall id :: id in users ==> r.body.value[id] == Public(id, users[id])
  {
    Response(200, Payload(map id | id in users :: Public(id, users[id])))
  }

  /** PUT /api/users/:id. The body is checked before the id; the update
      writes only the admin flag and runs no hooks. */
  method UpdateUser(id: string, isAdmin: Json, isValidId: string -> bool, users: map<Id, User>)
    returns (resp: Response<PublicUser>, users': map<Id, User>)
    ensures resp.status != 200 ==> users' == users
    ensures !isAdmin.Bool? ==> resp == Response(400, Text("isAdmin must be boolean"))
    ensures isAdmin.Bool? && (!isValidId(id) || id !in users) ==> resp == NotFound(id)
    ensures resp.status == 200 <==> isAdmin.Bool? && isValidId(id) && id in users
    ensures resp.status == 200 ==>
              && id in users'
              && users'[id].isAdmin == isAdmin.b
              && users'[id].username == users[id].username
              && users'[id].password == users[id].password
              && users' == users[id := users'[id]]
              && resp.body == Payload(Public(id, users'[id]))
    ensures UniqueUsernames(users) ==> UniqueUsernames(users')
  {
    users' := users;
    if !isAdmin.Bool? {
      return Response(400, Text("isAdmin must be boolean")), users';
    }
    if !isValidId(id) || id !in users {
      return NotFound(id), users';
    }
    var u := users[id].(isAdmin := isAdmin.b);
    users' := users[id := u];
    resp := Response(200, Payload(Public(id, u)));
    if UniqueUsernames(users) {
      forall a, b | a in users' && b in users' && users'[a].username == users'[b].username
        ensures a == b
      {
        assert users'[a].username == users[a].username && users'[b].username == users[b].username;
      }
    }
  }

  /** DELETE /api/users/:id */
  method DeleteUser(id: string, isValidId: string -> bool, users: map<Id, User>)
    returns (resp: Response<PublicUser>, users': map<Id, User>)
    ensures !isValidId(id) || id !in users ==> resp == NotFound(id) && users' == users
    ensures isValidId(id) && id in users ==> resp == Response(204, NoBody) && users' == users - {id}
  {
    if !isValidId(id) || id !in users {
      return NotFound(id), users;
    }
    users' := users - {id};
    resp := Response(204, NoBody);
  }
}
