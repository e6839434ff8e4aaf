/**
 * The user record the application keeps in its `users` list, with the
 * game statistics as they were persisted (any field may be missing).
 */
module UserTypes {
  import opened Common

  /** A persisted `game` object: every counter may be absent. */
  datatype PartialGame = PartialGame(
    xp: Option<int>,
    level: Option<int>,
    tokens: Option<int>,
    quizzesPlayed: Option<int>,
    totalQuestions: Option<int>,
    totalAnswered: Option<int>,
    totalCorrect: Option<int>,
    totalWrong: Option<int>,
    lastPlayedAt: Option<int>)

  /** A registered user. */
  datatype User = User(
    id: string,
    name: string,
    email: string,
    password: string,
    bio: Option<string>,
    profileImage: Option<string>,
    coverImage: Option<string>,
    game: Option<PartialGame>)

  /** `users.findIndex(u => u.id === id)` */
  function FindIndexById(users: seq<User>, id: string): (i: int)
    ensures -1 <= i < |users|
    ensures i == -1 <==> forall k :: 0 <= k < |users| ==> users[k].id != id
    ensures 0 <= i ==> users[i].id == id && forall k :: 0 <= k < i ==> users[k].id != id
  {
    IndexWhere(users, (u: User) => u.id == id)
  }
}
