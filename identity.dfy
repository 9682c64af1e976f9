/** Who the session belongs to: `sessionUser` and `isAdmin` (app.js). */
module Identity {
  import opened Wrappers
  import opened Seqs
  import opened Domain

  /** Where `sessionUser` finds its user: the first user whose id is the session's id. */
  function SessionUserIndex(users: seq<User>, session: Option<string>): (r: Option<nat>)
    ensures r.Some? ==> session.Some? && r.value < |users| && users[r.value].id == session.value
    ensures r.Some? ==> forall j :: 0 <= j < r.value ==> users[j].id != session.value
    ensures r.None? <==> session.None? || forall j :: 0 <= j < |users| ==> users[j].id != session.value
  {
    match session
    case None => None
    case Some(id) => FindIndex(users, (u: User) => u.id == id)
  }

  /** The first user carrying the session's id is the one `sessionUser` finds. */
  lemma SessionUserIndexIs(users: seq<User>, id: string, i: nat)
    requires i < |users| && users[i].id == id
    requires forall j :: 0 <= j < i ==> users[j].id != id
    ensures SessionUserIndex(users, Some(id)) == Some(i)
  {
    FindIndexFirst(users, (u: User) => u.id == id, i);
  }

  /**
   * `sessionUser`: the user the session names, or nothing when there is no
   * session or its id names no user (a dangling id counts as no session).
   */
  function SessionUser(users: seq<User>, session: Option<string>): (r: Option<User>)
    ensures r.Some? <==> session.Some? && exists j :: 0 <= j < |users| && users[j].id == session.value
    ensures r.Some? ==> r.value in users && r.value.id == session.value
  {
    match SessionUserIndex(users, session)
    case None => None
    case Some(i) => Some(users[i])
  }

  /** `isAdmin`: a user is present and has the admin role. */
  predicate IsAdmin(user: Option<User>)
  {
    user.Some? && user.value.role == Admin
  }

  /** The session user of a whole state. */
  function CurrentUser(s: State): Option<User>
  {
    SessionUser(s.users, s.sessionUserId)
  }
}
