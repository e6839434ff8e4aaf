/**
 * The authentication slice: the signed-in user restored at start-up from
 * the id kept under `loggedInUser`, and the reducers that sign a user in,
 * replace the user record and sign out.
 */
module AuthSlice {
  import opened Common
  import opened Text
  import opened UserTypes
  import opened WebStorage

  const LoggedInKey := "loggedInUser"

  /** The index of the first user whose trimmed id is `id`, or -1. */
  function FindByTrimmedId(users: seq<User>, id: string): (i: int)
    ensures -1 <= i < |users|
    ensures i == -1 <==> forall k :: 0 <= k < |users| ==> Trim(users[k].id) != id
    ensures 0 <= i ==> Trim(users[i].id) == id && forall k :: 0 <= k < i ==> Trim(users[k].id) != id
  {
    IndexWhere(users, (u: User) => Trim(u.id) == id)
  }

  /** The id start-up reads: the persistent store's when truthy, else the session store's. */
  function StoredId(localId: Option<string>, sessionId: Option<string>): Option<string> {
    if Truthy(localId) then localId else sessionId
  }

  /**
   * The initial state: the persistent store's id when it is truthy, else the
   * session store's; trimmed, and matched against the trimmed user ids. `None`
   * stands for the empty user object `{}`.
   */
  function InitialAuth(localId: Option<string>, sessionId: Option<string>, users: seq<User>)
    : (r: (Option<User>, bool))
    ensures r.1 <==> r.0.Some?
    ensures !Truthy(localId) && !Truthy(sessionId) ==> r == (None, false)
    ensures r.0.Some? ==>
      var id := Trim(StoredId(localId, sessionId).value);
      exists i :: 0 <= i < |users| && users[i] == r.0.value && Trim(users[i].id) == id
        && forall k :: 0 <= k < i ==> Trim(users[k].id) != id
    ensures (Truthy(localId) || Truthy(sessionId)) && r.0.None? ==>
      var id := Trim(StoredId(localId, sessionId).value);
      forall k :: 0 <= k < |users| ==> Trim(users[k].id) != id
  {
    var stored := StoredId(localId, sessionId);
    if !Truthy(stored) then (None, false)
    else
      var id := Trim(stored.value);
      var i := FindByTrimmedId(users, id);
      if i >= 0 then
        assert 0 <= i < |users| && Trim(users[i].id) == id && forall k :: 0 <= k < i ==> Trim(users[k].id) != id;
        (Some(users[i]), true)
      else (None, false)
  }

  /** A stored id with surrounding blanks signs in the same user as the bare id. */
  lemma InitialAuthIgnoresBlanks(local: string, users: seq<User>)
    requires Truthy(Some(local)) && Truthy(Some(Trim(local)))
    ensures InitialAuth(Some(local), None, users) == InitialAuth(Some(Trim(local)), None, users)
  {
    TrimIdempotent(local);
  }

  class Auth {
    var user: Option<User>
    var isAuthenticated: bool

    /** Signed in exactly when there is a user record. */
    ghost predicate Valid()
      reads this
    {
      isAuthenticated ==> user.Some?
    }

    constructor (local: Store, session: Store, users: seq<User>)
      ensures (user, isAuthenticated) == InitialAuth(local.GetItem(LoggedInKey), session.GetItem(LoggedInKey), users)
      ensures Valid()
    {
      var r := InitialAuth(local.GetItem(LoggedInKey), session.GetItem(LoggedInKey), users);
      user := r.0;
      isAuthenticated := r.1;
    }

    method SetAuthenticated(u: User)
      modifies this
      ensures user == Some(u) && isAuthenticated && Valid()
    {
      user := Some(u);
      isAuthenticated := true;
    }

    /** Replaces the record and leaves the signed-in flag as it was. */
    method SetUser(u: User)
      requires Valid()
      modifies this`user
      ensures user == Some(u) && Valid()
    {
      user := Some(u);
    }

    /** Clears the user and removes the remembered id from both stores. */
    method Logout(local: Store, session: Store)
      modifies this, local, session
      ensures user == None && !isAuthenticated && Valid()
      ensures local.items == old(local.items) - {LoggedInKey}
      ensures session.items == old(session.items) - {LoggedInKey} || session == local
    {
      user := None;
      isAuthenticated := false;
      local.RemoveItem(LoggedInKey);
      session.RemoveItem(LoggedInKey);
    }
  }

  /** After signing out, a fresh start finds nobody signed in. */
  method LogoutThenRestart(auth: Auth, local: Store, session: Store, users: seq<User>)
    returns (restarted: Auth)
    requires local != session
    modifies auth, local, session
    ensures !restarted.isAuthenticated && restarted.user == None
  {
    auth.Logout(local, session);
    restarted := new Auth(local, session, users);
  }
}
