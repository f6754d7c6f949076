/**
 * The session and the four route guards of the middleware. Each guard reads
 * `req.session.userId` (and `isAdmin` one looked-up user) and ends in exactly
 * one of: continue to the handler, redirect, or deny.
 */
module Guards {
  import opened Base
  import opened UserSchema

  /** The server-side session payload: the logged-in user's id and email. */
  class Session {
    var userId: Option<Id>
    var userEmail: Option<string>

    /** A fresh session, before anyone has logged in. */
    constructor ()
      ensures userId == None && userEmail == None
    {
      userId := None;
      userEmail := None;
    }
  }

  /** `next()`, `res.redirect(location)` or `res.status(status).render('error', { message })`. */
  datatype GuardResult = Next | Redirect(location: string) | Deny(status: int, message: string)

  const AccessDenied: string := "Access Denied: Admin privileges required"

  /** `isLoggedIn`: passes exactly when the session holds a user id, else sends to /login. */
  function IsLoggedIn(userId: Option<Id>): (r: GuardResult)
    ensures r == Next <==> userId.Some?
    ensures r != Next ==> r == Redirect("/login")
  {
    if userId.Some? then Next else Redirect("/login")
  }

  /**
   * `isVerified`: despite its name it looks only at the session, never at the
   * user's `isVerified` flag, and so decides exactly as `isLoggedIn` does.
   */
  function IsVerified(userId: Option<Id>): (r: GuardResult)
    ensures r == IsLoggedIn(userId)
  {
    if userId.Some? then Next else Redirect("/login")
  }

  /** `isNotLoggedIn`: passes exactly when no one is logged in, else sends to /dashboard. */
  function IsNotLoggedIn(userId: Option<Id>): (r: GuardResult)
    ensures r == Next <==> userId.None?
    ensures r != Next ==> r == Redirect("/dashboard")
  {
    if userId.None? then Next else Redirect("/dashboard")
  }

  /**
   * `user.isAdmin` on a document of this schema. The schema declares no such
   * path, so the property read gives `undefined`.
   */
  function IsAdminPath(u: User): Option<bool>
  {
    None
  }

  /** JavaScript truthiness of an optional boolean. */
  predicate Truthy(b: Option<bool>)
  {
    b == Some(true)
  }

  /**
   * `isAdmin` as written: no session goes to /login before any lookup; a missing
   * user or a falsy `user.isAdmin` is denied with 403. Since that path is always
   * undefined, every logged-in user is denied, admins included.
   */
  function IsAdminAsWritten(userId: Option<Id>, users: map<Id, User>): (r: GuardResult)
    ensures userId.None? ==> r == Redirect("/login")
    ensures userId.Some? ==> r == Deny(403, AccessDenied)
  {
    if userId.None? then Redirect("/login")
    else if userId.value !in users || !Truthy(IsAdminPath(users[userId.value])) then Deny(403, AccessDenied)
    else Next
  }

  /** A user whose role is "admin" is still turned away by the guard as written. */
  lemma AdminRoleDeniedAsWritten(u: User)
    requires u.role == RoleAdmin
    ensures IsAdminAsWritten(Some(0), map[0 := u]) == Deny(403, AccessDenied)
    ensures IsAdmin(Some(0), map[0 := u]) == Next
  {
  }

  /**
   * `isAdmin` as evidently intended: the same chain, deciding on the user's `role`,
   * the only place the schema keeps admin status.
   */
  function IsAdmin(userId: Option<Id>, users: map<Id, User>): (r: GuardResult)
    ensures userId.None? ==> r == Redirect("/login")
    ensures r == Next <==> userId.Some? && userId.value in users && users[userId.value].role == RoleAdmin
    ensures userId.Some? && r != Next ==> r == Deny(403, AccessDenied)
  {
    if userId.None? then Redirect("/login")
    else if userId.value !in users || users[userId.value].role != RoleAdmin then Deny(403, AccessDenied)
    else Next
  }
}
