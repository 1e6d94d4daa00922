/** HTTP answers, the session user and the authorization rule shared by the
    server's handlers. */
module Http {
  import opened Basics
  import Strings

  /** What a handler sends: a JSON string, a one-field error object such as
      `{ error: "..." }`, a record, or nothing (`sendStatus(204)`). */
  datatype Body<T> = Text(text: string) | Field(key: string, text: string) | Payload(value: T) | NoBody

  datatype Response<T> = Response(status: nat, body: Body<T>)

  /** The projection `{ _id, username, isAdmin }` that login stores in the session. */
  datatype SessionUser = SessionUser(id: Id, username: string, isAdmin: bool)

  /** Stands for the text of an error raised by the database layer
      (`error.message`), which the handlers pass on verbatim. */
  const DatabaseErrorText: string := "database error"

  function Unauthorized<T>(): Response<T>
  {
    Response(401, Text("Unauthorized"))
  }

  function Forbidden<T>(): Response<T>
  {
    Response(403, Text("Forbidden"))
  }

  function NotFound<T>(id: string): Response<T>
  {
    Response(404, Text(id + " not found"))
  }

  /** The single 400 answer listing every collected field error. */
  function InvalidFields<T>(errors: seq<string>): Response<T>
  {
    Response(400, Text("Invalid or missing fields: " + Strings.Join(errors, ", ")))
  }

  /** The resource rule: an admin, or the user recorded as the owner. */
  predicate MayMutate(actor: SessionUser, owner: Id)
  {
    actor.isAdmin || owner == actor.id
  }

  /** The guard sequence run before an update or delete of an owned record:
      no session user (401), a malformed id or no such record (404), neither
      admin nor owner (403). `owner` is the record's owner, or `None` when no
      record has the id. `None` means every guard passed. */
  function OwnedRecordGuard<T>(session: Option<SessionUser>, idValid: bool, id: string, owner: Option<Id>): (r: Option<Response<T>>)
    ensures r.None? <==> session.Some? && idValid && owner.Some? && MayMutate(session.value, owner.value)
    ensures session.None? ==> r == Some(Unauthorized())
    ensures session.Some? && (!idValid || owner.None?) ==> r == Some(NotFound(id))
    ensures session.Some? && idValid && owner.Some? && !MayMutate(session.value, owner.value) ==> r == Some(Forbidden())
  {
    if session.None? then Some(Unauthorized())
    else if !idValid then Some(NotFound(id))
    else if owner.None? then Some(NotFound(id))
    else if !MayMutate(session.value, owner.value) then Some(Forbidden())
    else None
  }
}
