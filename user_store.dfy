/**
 * The persistence layer the handlers call (`findOne`, `findById`, `save`,
 * `findByIdAndDelete`), as a map from record id to document with a unique
 * `email`. Ids are allocated in insertion order, so a scan in id order is the
 * collection's natural order, the order an unsorted `findOne` returns matches in.
 */
module Store {
  import opened Base
  import opened UserSchema

  /** The query filters the handlers pass to `findOne`. */
  datatype Filter =
    | ByEmail(email: string)                // `{ email }`
    | ByLiveToken(token: string, now: Ms)   // `{ verificationToken: token, verificationTokenExpiry: { $gt: now } }`

  /** A document carries `token` and its expiry lies strictly after `now`. */
  predicate TokenAccepts(u: User, token: string, now: Ms)
  {
    u.verificationToken == Some(token) && u.verificationTokenExpiry.Some? && u.verificationTokenExpiry.value > now
  }

  predicate Holds(f: Filter, u: User)
  {
    match f
    case ByEmail(email) => u.email == NormalizeEmail(email)
    case ByLiveToken(token, now) => TokenAccepts(u, token, now)
  }

  /** The first id in [from, bound) whose document matches `f`. */
  function FindFirst(users: map<Id, User>, f: Filter, from: nat, bound: nat): (r: Option<Id>)
    decreases bound - from
    ensures r.Some? ==> from <= r.value < bound && r.value in users && Holds(f, users[r.value])
    ensures r.Some? ==> forall j :: from <= j < r.value && j in users ==> !Holds(f, users[j])
    ensures r.None? ==> forall j :: from <= j < bound && j in users ==> !Holds(f, users[j])
  {
    if from >= bound then None
    else if from in users && Holds(f, users[from]) then Some(from)
    else FindFirst(users, f, from + 1, bound)
  }

  /** The unique index on `email`. */
  ghost predicate EmailsUnique(users: map<Id, User>)
  {
    forall i, j :: i in users && j in users && users[i].email == users[j].email ==> i == j
  }

  /** No stored document has `email`. */
  predicate EmailFree(users: map<Id, User>, email: string)
  {
    forall j :: j in users ==> users[j].email != email
  }

  /** Adding a document whose email is free keeps the index unique. */
  lemma InsertKeepsEmailsUnique(users: map<Id, User>, id: Id, u: User)
    requires EmailsUnique(users) && EmailFree(users, u.email) && id !in users
    ensures EmailsUnique(users[id := u])
  {
    var after := users[id := u];
    forall i, j | i in after && j in after && after[i].email == after[j].email
      ensures i == j
    {
      if i != id && j != id {
        assert users[i].email == users[j].email;
      }
    }
  }

  class UserStore {
    var users: map<Id, User>
    var nextId: nat

    ghost predicate Valid()
      reads this
    {
      && (forall id :: id in users ==> id < nextId && Conforms(users[id]))
      && EmailsUnique(users)
    }

    constructor ()
      ensures Valid() && users == map[] && nextId == 0
    {
      users := map[];
      nextId := 0;
    }

    /** `findOne(filter)`: the first match in natural order, or none. */
    function FindOne(f: Filter): (r: Option<Id>)
      reads this
      requires Valid()
      ensures r.Some? ==> r.value in users && Holds(f, users[r.value])
      ensures r.Some? ==> forall j :: j in users && j < r.value ==> !Holds(f, users[j])
      ensures r.None? ==> forall j :: j in users ==> !Holds(f, users[j])
    {
      FindFirst(users, f, 0, nextId)
    }

    /** With unique emails, a lookup by email finds the one document that has it. */
    lemma FindByEmailIsUnique(email: string, id: Id)
      requires Valid() && id in users && users[id].email == NormalizeEmail(email)
      ensures FindOne(ByEmail(email)) == Some(id)
    {
    }

    /**
     * `save()` of a new document: refused (nothing written) when validation
     * fails or the unique index already holds its email.
     */
    method Insert(u: User) returns (r: Option<Id>)
      requires Valid()
      modifies this
      ensures Valid()
      ensures r.Some? <==> Conforms(u) && EmailFree(old(users), u.email)
      ensures r.Some? ==> r.value == old(nextId) && r.value !in old(users)
                          && users == old(users)[r.value := u] && nextId == old(nextId) + 1
      ensures r.None? ==> users == old(users) && nextId == old(nextId)
    {
      if Conforms(u) && EmailFree(users, u.email) {
        InsertKeepsEmailsUnique(users, nextId, u);
        r := Some(nextId);
        users := users[nextId := u];
        nextId := nextId + 1;
      } else {
        r := None;
      }
    }

    /** `save()` of a loaded document whose email is unchanged. */
    method Save(id: Id, u: User)
      requires Valid() && id in users && Conforms(u) && u.email == users[id].email
      modifies this
      ensures Valid()
      ensures users == old(users)[id := u] && nextId == old(nextId)
    {
      users := users[id := u];
    }

    /** `findByIdAndDelete(id)`: removes that one document and returns it, if it exists. */
    method FindByIdAndDelete(id: Id) returns (r: Option<User>)
      requires Valid()
      modifies this
      ensures Valid()
      ensures r == (if id in old(users) then Some(old(users)[id]) else None)
      ensures users == old(users) - {id} && nextId == old(nextId)
    {
      r := if id in users then Some(users[id]) else None;
      users := users - {id};
    }
  }
}
