/**
 * Signing in: the credential lookup over the stored users, the choice of
 * store for the remembered id, and the sign-in dispatch.
 */
module LoginPage {
  import opened Common
  import opened UserTypes
  import opened WebStorage
  import opened Text
  import opened AuthSlice

  /** The first stored user whose email and password both equal the submitted ones, or -1. */
  function FindCredentials(users: seq<User>, email: string, password: string): (i: int)
    ensures -1 <= i < |users|
    ensures i == -1 <==> forall k :: 0 <= k < |users| ==> !(users[k].email == email && users[k].password == password)
    ensures 0 <= i ==> users[i].email == email && users[i].password == password
    ensures 0 <= i ==> forall k :: 0 <= k < i ==> !(users[k].email == email && users[k].password == password)
  {
    IndexWhere(users, (u: User) => u.email == email && u.password == password)
  }

  /**
   * The delayed body of `onSubmit`. On failure nothing is written and nobody
   * is signed in; on success the user's id goes to the persistent store when
   * `remember` is set and to the session store otherwise, and the user is
   * signed in.
   */
  method SubmitLogin(users: seq<User>, email: string, password: string, remember: bool,
                     local: Store, session: Store, auth: Auth)
    returns (success: bool)
    requires local != session && auth.Valid()
    modifies local, session, auth
    ensures success <==> FindCredentials(users, email, password) >= 0
    ensures !success ==> local.items == old(local.items) && session.items == old(session.items)
    ensures !success ==> auth.user == old(auth.user) && auth.isAuthenticated == old(auth.isAuthenticated)
    ensures success ==>
      var u := users[FindCredentials(users, email, password)];
      && auth.user == Some(u) && auth.isAuthenticated
      && (remember ==> local.items == old(local.items)[LoggedInKey := u.id] && session.items == old(session.items))
      && (!remember ==> session.items == old(session.items)[LoggedInKey := u.id] && local.items == old(local.items))
    ensures auth.Valid()
  {
    var i := FindCredentials(users, email, password);
    if i < 0 {
      return false;
    }
    var u := users[i];
    if remember {
      local.SetItem(LoggedInKey, u.id);
    } else {
      session.SetItem(LoggedInKey, u.id);
    }
    auth.SetAuthenticated(u);
    success := true;
  }

  /**
   * The next start-up restores the user who signed in, when ids are unique after trimming.
   * A remembered login is restored whatever the session store holds; a login that was not
   * remembered is restored only when the local store holds no signed-in id.
   */
  lemma RestoredAfterLogin(users: seq<User>, i: int, other: Option<string>)
    requires 0 <= i < |users| && users[i].id != "" && Trim(users[i].id) == users[i].id
    requires forall k :: 0 <= k < |users| && k != i ==> Trim(users[k].id) != users[i].id
    ensures InitialAuth(Some(users[i].id), other, users) == (Some(users[i]), true)
    ensures !Truthy(other) ==> InitialAuth(other, Some(users[i].id), users) == (Some(users[i]), true)
  {
  }

  /**
   * A signed-in id left in the local store decides the next start-up, whatever the session
   * store holds: a later login that was not remembered is then not the one restored.
   */
  lemma StaleLocalIdWins(users: seq<User>, localId: string, sessionId: Option<string>)
    requires localId != ""
    ensures InitialAuth(Some(localId), sessionId, users) == InitialAuth(Some(localId), None, users)
  {
  }

  /** Two users: A remembered earlier, then B signed in without remembering; A comes back. */
  lemma StaleLocalIdExample(a: User, b: User)
    requires a.id == "a" && b.id == "b"
    ensures InitialAuth(Some(a.id), Some(b.id), [a, b]) == (Some(a), true)
  {
    assert !IsSpace('a') && LeadingSpaces(a.id) == 0;
    assert Trim(a.id) == a.id by {
      assert Trim(a.id) != [] by { assert !AllSpace(a.id[0..]); }
    }
    assert Trim(b.id) != a.id by {
      assert !IsSpace('b') && LeadingSpaces(b.id) == 0;
    }
    RestoredAfterLogin([a, b], 0, Some(b.id));
  }
}
