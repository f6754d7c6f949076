/**
 * The admin handlers: list and show users, toggle a user's role, delete a user.
 * Every route runs behind the `isAdmin` guard first.
 */
module AdminRoutes {
  import opened Base
  import opened UserSchema
  import opened Store
  import opened Tokens
  import opened Guards

  const UserNotFound: string := "User not found"
  const CannotDeleteSelf: string := "Cannot delete your own account"
  const UserDeleted: string := "User deleted successfully"

  /** A document as `select('-password')` returns it: every path but the password hash. */
  datatype PublicUser = PublicUser(
    id: Id,
    email: string,
    isVerified: bool,
    role: string,
    verificationToken: Option<string>,
    verificationTokenExpiry: Option<Ms>,
    lastVerificationEmailSent: Option<Ms>,
    verificationEmailCount: Option<int>,
    createdAt: Ms)

  function Public(id: Id, u: User): PublicUser
  {
    PublicUser(id, u.email, u.isVerified, u.role, u.verificationToken, u.verificationTokenExpiry,
               u.lastVerificationEmailSent, u.verificationEmailCount, u.createdAt)
  }

  /** The view drops the password and nothing else: two documents look alike iff they differ at most in it. */
  lemma PublicDropsOnlyPassword(id: Id, u: User, v: User)
    ensures Public(id, u) == Public(id, v) <==> u.(password := v.password) == v
  {
  }

  /** What the admin routes answer. */
  datatype AdminResponse =
    | Guarded(guard: GuardResult)                                      // the guard did not call `next()`
    | UsersPage(users: seq<PublicUser>)                                 // `render('admin/users', { users })`
    | UserPage(user: PublicUser)                                        // `render('admin/user-detail', { user })`
    | ErrorPage(message: string)                                        // `render('error', { message })`
    | Json(status: int, success: bool, message: string, role: Option<string>)

  /** The role flip: "admin" becomes "user", anything else becomes "admin". */
  function ToggleRole(role: string): (r: string)
    ensures IsRole(r)
    ensures r == RoleUser <==> role == RoleAdmin
  {
    if role == RoleAdmin then RoleUser else RoleAdmin
  }

  /** Toggling twice restores a role of the schema's enum. */
  lemma ToggleTwice(role: string)
    requires IsRole(role)
    ensures ToggleRole(ToggleRole(role)) == role
  {
  }

  /** Outside the enum the flip is not an involution: two toggles end at "user". */
  lemma ToggleTwiceOutsideEnum(role: string)
    requires !IsRole(role)
    ensures ToggleRole(ToggleRole(role)) == RoleUser != role
  {
  }

  predicate SortedByNewest(s: seq<PublicUser>)
  {
    forall i, j :: 0 <= i < j < |s| ==> s[i].createdAt >= s[j].createdAt
  }

  /** A head no older than anything after it keeps a sorted sequence sorted. */
  lemma ConsSorted(h: PublicUser, r: seq<PublicUser>)
    requires SortedByNewest(r)
    requires forall k :: 0 <= k < |r| ==> r[k].createdAt <= h.createdAt
    ensures SortedByNewest([h] + r)
  {
    forall i, j | 0 <= i < j < |[h] + r| ensures ([h] + r)[i].createdAt >= ([h] + r)[j].createdAt {
      if i > 0 { assert ([h] + r)[i] == r[i - 1]; }
      assert ([h] + r)[j] == r[j - 1];
    }
  }

  /** Every element of `r` is `p` or an element of `t`, so none is newer than `h`. */
  lemma BoundedBy(h: PublicUser, p: PublicUser, t: seq<PublicUser>, r: seq<PublicUser>)
    requires multiset(r) == multiset(t) + multiset{p}
    requires p.createdAt <= h.createdAt
    requires forall k :: 0 <= k < |t| ==> t[k].createdAt <= h.createdAt
    ensures forall k :: 0 <= k < |r| ==> r[k].createdAt <= h.createdAt
  {
    forall k | 0 <= k < |r| ensures r[k].createdAt <= h.createdAt {
      assert r[k] in multiset(r);
      if r[k] != p {
        assert r[k] in multiset(t);
        var m :| 0 <= m < |t| && t[m] == r[k];
      }
    }
  }

  function InsertByNewest(p: PublicUser, s: seq<PublicUser>): (r: seq<PublicUser>)
    requires SortedByNewest(s)
    ensures SortedByNewest(r)
    ensures multiset(r) == multiset(s) + multiset{p}
    decreases |s|
  {
    if s == [] || s[0].createdAt <= p.createdAt then
      ConsSorted(p, s);
      [p] + s
    else
      var rest := InsertByNewest(p, s[1..]);
      assert s == [s[0]] + s[1..];
      BoundedBy(s[0], p, s[1..], rest);
      ConsSorted(s[0], rest);
      [s[0]] + rest
  }

  /** `sort({ createdAt: -1 })`: newest first, same elements. */
  function SortByNewest(s: seq<PublicUser>): (r: seq<PublicUser>)
    ensures SortedByNewest(r)
    ensures multiset(r) == multiset(s)
    decreases |s|
  {
    if s == [] then []
    else
      assert s == [s[0]] + s[1..];
      InsertByNewest(s[0], SortByNewest(s[1..]))
  }

  /** `p` is the password-less view of the document stored under an id in [from, bound). */
  predicate InRange(users: map<Id, User>, from: nat, bound: nat, p: PublicUser)
  {
    from <= p.id < bound && p.id in users && p == Public(p.id, users[p.id])
  }

  /** The documents with ids in [from, bound), in natural order, without their passwords. */
  function Natural(users: map<Id, User>, from: nat, bound: nat): (r: seq<PublicUser>)
    decreases bound - from
    ensures forall p :: multiset(r)[p] == if InRange(users, from, bound, p) then 1 else 0
  {
    if from >= bound then []
    else (if from in users then [Public(from, users[from])] else []) + Natural(users, from + 1, bound)
  }

  /**
   * `User.find().select('-password').sort({ createdAt: -1 })`: every user exactly
   * once, without the password, newest first.
   */
  function ListUsers(users: map<Id, User>, nextId: nat): (r: seq<PublicUser>)
    requires forall id :: id in users ==> id < nextId
    ensures SortedByNewest(r)
    ensures forall id :: id in users ==> multiset(r)[Public(id, users[id])] == 1
    ensures forall p :: p in r ==> p.id in users && p == Public(p.id, users[p.id])
  {
    var n := Natural(users, 0, nextId);
    var r := SortByNewest(n);
    assert forall p :: p in r ==> multiset(n)[p] > 0 by {
      forall p | p in r ensures multiset(n)[p] > 0 {
        assert p in multiset(r);
      }
    }
    r
  }

  /** GET /admin/users. */
  method ListAllUsers(db: UserStore, session: Session) returns (resp: AdminResponse)
    requires db.Valid()
    ensures var g := IsAdmin(session.userId, db.users);
      && (g != Next ==> resp == Guarded(g))
      && (g == Next ==> resp == UsersPage(ListUsers(db.users, db.nextId)))
  {
    var g := IsAdmin(session.userId, db.users);
    if g != Next {
      return Guarded(g);
    }
    resp := UsersPage(ListUsers(db.users, db.nextId));
  }

  /** GET /admin/users/:id: the one document without its password, or a "not found" page. */
  method ShowUser(db: UserStore, session: Session, id: Id) returns (resp: AdminResponse)
    requires db.Valid()
    ensures var g := IsAdmin(session.userId, db.users);
      && (g != Next ==> resp == Guarded(g))
      && (g == Next && id in db.users ==> resp == UserPage(Public(id, db.users[id])))
      && (g == Next && id !in db.users ==> resp == ErrorPage(UserNotFound))
  {
    var g := IsAdmin(session.userId, db.users);
    if g != Next {
      return Guarded(g);
    }
    if id !in db.users {
      return ErrorPage(UserNotFound);
    }
    resp := UserPage(Public(id, db.users[id]));
  }

  /**
   * POST /admin/users/:id/toggle-admin: flips the role of that one record and
   * nothing else. There is no check against the caller's own id.
   */
  method ToggleAdmin(db: UserStore, session: Session, id: Id) returns (resp: AdminResponse)
    requires db.Valid()
    modifies db
    ensures db.Valid()
    ensures AllTokensConsistent(old(db.users)) ==> AllTokensConsistent(db.users)
    ensures var g := IsAdmin(session.userId, old(db.users));
      && (g != Next ==> resp == Guarded(g) && db.users == old(db.users))
      && (g == Next && id !in old(db.users) ==>
            resp == Json(404, false, UserNotFound, None) && db.users == old(db.users))
      && (g == Next && id in old(db.users) ==>
            var role := ToggleRole(old(db.users)[id].role);
            && db.users == old(db.users)[id := old(db.users)[id].(role := role)]
            && resp == Json(200, true, "User role changed to " + role, Some(role)))
  {
    var g := IsAdmin(session.userId, db.users);
    if g != Next {
      return Guarded(g);
    }
    if id !in db.users {
      return Json(404, false, UserNotFound, None);
    }
    var user := db.users[id];
    var role := ToggleRole(user.role);
    if AllTokensConsistent(db.users) {
      UpdateKeepsTokensConsistent(db.users, id, user.(role := role));
    }
    db.Save(id, user.(role := role));
    resp := Json(200, true, "User role changed to " + role, Some(role));
  }

  /**
   * POST /admin/users/:id/delete: the caller's own id is refused before the
   * store is touched; otherwise exactly that record is removed, if it exists.
   */
  method DeleteUser(db: UserStore, session: Session, id: Id) returns (resp: AdminResponse)
    requires db.Valid()
    modifies db
    ensures db.Valid()
    ensures AllTokensConsistent(old(db.users)) ==> AllTokensConsistent(db.users)
    ensures var g := IsAdmin(session.userId, old(db.users));
      && (g != Next ==> resp == Guarded(g) && db.users == old(db.users))
      && (g == Next && session.userId == Some(id) ==>
            resp == Json(200, false, CannotDeleteSelf, None) && db.users == old(db.users))
      && (g == Next && session.userId != Some(id) && id !in old(db.users) ==>
            resp == Json(404, false, UserNotFound, None) && db.users == old(db.users))
      && (g == Next && session.userId != Some(id) && id in old(db.users) ==>
            resp == Json(200, true, UserDeleted, None) && db.users == old(db.users) - {id})
  {
    var g := IsAdmin(session.userId, db.users);
    if g != Next {
      return Guarded(g);
    }
    if session.userId == Some(id) {
      return Json(200, false, CannotDeleteSelf, None);
    }
    if AllTokensConsistent(db.users) {
      RemoveKeepsTokensConsistent(db.users, id);
    }
    var removed := db.FindByIdAndDelete(id);
    if removed.None? {
      assert db.users == old(db.users);
      return Json(404, false, UserNotFound, None);
    }
    resp := Json(200, true, UserDeleted, None);
  }
}
