/** The stored user account and its save path: schema validation, the
    pre-save hook that replaces a modified password by its hash, and the
    unique index on the user name. */
module UserModel {
  import opened Basics
  import opened Schema

  datatype User = User(username: string, password: string, isAdmin: bool)

  /** The projection sent to clients and kept in the session: no password. */
  datatype PublicUser = PublicUser(id: Id, username: string, isAdmin: bool)

  function Public(id: Id, u: User): (p: PublicUser)
    ensures p.id == id && p.username == u.username && p.isAdmin == u.isAdmin
  {
    PublicUser(id, u.username, u.isAdmin)
  }

  /** Building a user document: `isAdmin` defaults to false. */
  function NewUser(username: string, password: string, isAdmin: Option<bool>): (u: User)
    ensures u.username == username && u.password == password
    ensures u.isAdmin <==> isAdmin == Some(true)
  {
    User(username, password, if isAdmin.Some? then isAdmin.value else false)
  }

  /** `username` and `password` are required. */
  predicate UserValid(u: User)
  {
    Required(u.username) && Required(u.password)
  }

  /** The unique index on `username`. */
  predicate UniqueUsernames(users: map<Id, User>)
  {
    forall a, b :: a in users && b in users && users[a].username == users[b].username ==> a == b
  }

  predicate UsernameTaken(users: map<Id, User>, name: string)
  {
    exists id :: id in users && users[id].username == name
  }

  /** The pre-save hook. When the password was modified it is replaced by
      its hash; a failing hash aborts the save. `hash` stands for the
      password-hashing library: `None` is a thrown error. */
  method PreSave(u: User, passwordModified: bool, hash: string -> Option<string>) returns (r: Result<User>)
    ensures !passwordModified ==> r == Ok(u)
    ensures passwordModified && hash(u.password).None? ==> r == Err(HookError)
    ensures passwordModified && hash(u.password).Some? ==> r == Ok(u.(password := hash(u.password).value))
  {
    if passwordModified {
      var hashed := hash(u.password);
      if hashed.None? {
        return Err(HookError);
      }
      r := Ok(u.(password := hashed.value));
    } else {
      r := Ok(u);
    }
  }

  /** Saving a user: validation, then the pre-save hook, then the unique index. */
  method SaveUser(users: map<Id, User>, id: Id, u: User, passwordModified: bool, hash: string -> Option<string>)
    returns (r: Result<map<Id, User>>)
    ensures !UserValid(u) ==> r == Err(ValidationError)
    ensures UserValid(u) && passwordModified && hash(u.password).None? ==> r == Err(HookError)
    ensures r.Ok? <==> UserValid(u) && (passwordModified ==> hash(u.password).Some?)
                       && forall other :: other in users && other != id ==> users[other].username != u.username
    ensures r.Ok? ==> r.value == users[id := u.(password := if passwordModified then hash(u.password).value else u.password)]
    ensures UniqueUsernames(users) && r.Ok? ==> UniqueUsernames(r.value)
  {
    if !UserValid(u) {
      return Err(ValidationError);
    }
    var hooked := PreSave(u, passwordModified, hash);
    if hooked.Err? {
      return Err(hooked.error);
    }
    if exists other :: other in users && other != id && users[other].username == u.username {
      return Err(DuplicateKey);
    }
    r := Ok(users[id := hooked.value]);
    if UniqueUsernames(users) {
      forall a, b | a in r.value && b in r.value && r.value[a].username == r.value[b].username
        ensures a == b
      {
        if a != id && b != id {
          assert r.value[a] == users[a] && r.value[b] == users[b];
        }
      }
    }
  }
}
