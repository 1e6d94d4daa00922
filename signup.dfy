/** Account creation: input checks, user-name normalisation, the
    duplicate check, and the public projection of the new account. */
module Signup {
  import opened Basics
  import opened Strings
  import opened JsValues
  import opened Http
  import opened Schema
  import opened UserModel

  /** A credential field is acceptable when it is a string that is not blank. */
  predicate Present(v: Json)
  {
    v.Str? && Trim(v.s) != ""
  }

  /** The stored form of a user name: trimmed, then lower-cased. */
  function Normalize(name: string): (r: string)
    ensures |r| <= |name|
    ensures forall i :: 0 <= i < |r| ==> !('A' <= r[i] <= 'Z')
    ensures r == [] || (!IsSpace(r[0]) && !IsSpace(r[|r| - 1]))
  {
    ToLower(Trim(name))
  }

  lemma LowerCharSpace(c: char)
    ensures IsSpace(LowerChar(c)) <==> IsSpace(c)
    ensures LowerChar(LowerChar(c)) == LowerChar(c)
  {
  }

  /** Normalising twice changes nothing: a normalised name is stored as it is given. */
  lemma NormalizeIdempotent(name: string)
    ensures Normalize(Normalize(name)) == Normalize(name)
  {
    var n := Normalize(name);
    TrimOfTrimmed(n);
    assert ToLower(n) == n by {
      forall i | 0 <= i < |n|
        ensures ToLower(n)[i] == n[i]
      {
        LowerCharSpace(Trim(name)[i]);
      }
    }
  }

  /** How a failed save is answered: a unique-index violation is a conflict, anything else a server error. */
  function SaveFailure(e: DbError): (r: Response<PublicUser>)
    ensures r.status == 409 <==> e == DuplicateKey
    ensures r.status == 409 ==> r.body == Text("Username already taken")
    ensures r.status != 409 ==> r == Response(500, Text("Server error during signup"))
  {
    if e == DuplicateKey then Response(409, Text("Username already taken"))
    else Response(500, Text("Server error during signup"))
  }

  /** POST /api/users/signup, also mounted as /api/users/register. `newId`
      is the identifier the database assigns; `hash` is the password-hashing
      library used by the pre-save hook. */
  method Signup(username: Json, password: Json, users: map<Id, User>, newId: Id, hash: string -> Option<string>)
    returns (resp: Response<PublicUser>, users': map<Id, User>)
    requires newId !in users
    ensures resp.status != 201 ==> users' == users
    ensures !Present(username) || !Present(password) ==>
              resp == Response(400, Text("Username and password are required"))
    ensures Present(username) && Present(password) && UsernameTaken(users, Normalize(username.s)) ==>
              resp == Response(409, Text("Username already taken"))
    ensures (Present(username) && Present(password) && !UsernameTaken(users, Normalize(username.s))
             && hash(password.s).None?) ==> resp == Response(500, Text("Server error during signup"))
    ensures resp.status == 201 <==>
              Present(username) && Present(password) && !UsernameTaken(users, Normalize(username.s)) && hash(password.s).Some?
    ensures resp.status == 201 ==>
              && resp.body == Payload(PublicUser(newId, Normalize(username.s), false))
              && users' == users[newId := User(Normalize(username.s), hash(password.s).value, false)]
    ensures UniqueUsernames(users) ==> UniqueUsernames(users')
  {
    users' := users;
    if !username.Str? || !password.Str? || Trim(username.s) == "" || Trim(password.s) == "" {
      return Response(400, Text("Username and password are required")), users';
    }
    var clean := Normalize(username.s);
    if UsernameTaken(users, clean) {
      return Response(409, Text("Username already taken")), users';
    }
    var u := NewUser(clean, password.s, Some(false));
    var saved := SaveUser(users, newId, u, true, hash);
    if saved.Err? {
      return SaveFailure(saved.error), users';
    }
    users' := saved.value;
    resp := Response(201, Payload(Public(newId, u)));
  }
}
