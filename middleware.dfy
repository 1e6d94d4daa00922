/** The two route guards and the order in which the user-management routes
    mount them. */
module Middleware {
  import opened Basics
  import opened Http

  /** A guard either lets the request through to the next handler or answers it. */
  datatype Outcome = Next | Reject(response: Response<()>)

  /** `requireAuth`: 401 when there is no session user. */
  function RequireAuth(session: Option<SessionUser>): (r: Outcome)
    ensures r.Next? <==> session.Some?
    ensures r.Reject? ==> r.response == Response(401, Text("Unauthorized"))
  {
    if session.None? then Reject(Response(401, Text("Unauthorized"))) else Next
  }

  /** `requireAdmin`: 403 unless the session user is present and an admin. */
  function RequireAdmin(session: Option<SessionUser>): (r: Outcome)
    ensures r.Next? <==> session.Some? && session.value.isAdmin
    ensures r.Reject? ==> r.response == Response(403, Field("message", "Admins only"))
  {
    if session.None? || !session.value.isAdmin then Reject(Response(403, Field("message", "Admins only"))) else Next
  }

  /** Guards mounted one after the other: the first rejection answers. */
  function Then(first: Outcome, second: Outcome): Outcome
  {
    if first.Reject? then first else second
  }

  /** The user-management routes mount `requireAuth` then `requireAdmin`. */
  function AdminRoutes(session: Option<SessionUser>): (r: Outcome)
    ensures r.Next? ==> session.Some? && session.value.isAdmin
    ensures session.None? ==> r == Reject(Response(401, Text("Unauthorized")))
    ensures session.Some? && !session.value.isAdmin ==> r == Reject(Response(403, Field("message", "Admins only")))
    ensures session.Some? && session.value.isAdmin ==> r == Next
  {
    Then(RequireAuth(session), RequireAdmin(session))
  }
}
