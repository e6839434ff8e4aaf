/**
 * The account page: the profile form's submission with its ordered
 * change-password checks, the replacement of the user in the stored list,
 * and the accuracy it shows.
 */
module AccountPage {
  import opened Common
  import opened UserTypes
  import opened Passwords

  /** The submitted form. `name` and `bio` are `None` when the field is absent. */
  datatype ProfileForm = ProfileForm(
    name: Option<string>,
    bio: Option<string>,
    currentPassword: string,
    newPassword: string,
    confirmPassword: string)

  /**
   * The user the page edits: the first stored user whose id equals the
   * remembered id exactly (no trimming here), from the persistent store when
   * that id is truthy and from the session store otherwise.
   */
  function LoadedUser(users: seq<User>, localId: Option<string>, sessionId: Option<string>): (u: Option<User>)
    ensures u.Some? ==> var id := if localId.Some? && localId.value != "" then localId else sessionId;
      id.Some? && exists k :: 0 <= k < |users| && users[k] == u.value && forall j :: 0 <= j < k ==> users[j].id != id.value
    ensures u.Some? ==> var id := if localId.Some? && localId.value != "" then localId else sessionId;
      id.Some? && u.value.id == id.value
    ensures u.None? ==> var id := if localId.Some? && localId.value != "" then localId else sessionId;
      id.None? || forall k :: 0 <= k < |users| ==> users[k].id != id.value
  {
    var id := if localId.Some? && localId.value != "" then localId else sessionId;
    if id.None? then None
    else
      var i := FindIndexById(users, id.value);
      if i >= 0 then Some(users[i]) else None
  }

  /** The reasons a submission stops, in the order they are checked. */
  datatype SubmitError =
    | NoUser
    | CurrentPasswordRequired
    | CurrentPasswordIncorrect
    | NewPasswordRequired
    | ConfirmMismatch
    | WeakPassword

  /** Any of the three password fields is filled in. */
  predicate WantsChangePassword(f: ProfileForm) {
    f.currentPassword != "" || f.newPassword != "" || f.confirmPassword != ""
  }

  /**
   * The first password check that fails, or `None` when the change may go
   * ahead: each reason is reported exactly when every earlier check passed
   * and its own fails.
   */
  function PasswordCheck(f: ProfileForm, stored: string): (e: Option<SubmitError>)
    ensures e == None <==>
      !WantsChangePassword(f)
      || (f.currentPassword != "" && f.currentPassword == stored && f.newPassword != ""
          && f.confirmPassword == f.newPassword && PasswordOk(f.newPassword))
    ensures e != Some(NoUser)
    ensures e == Some(CurrentPasswordRequired) <==> WantsChangePassword(f) && f.currentPassword == ""
    ensures e == Some(CurrentPasswordIncorrect) <==>
      WantsChangePassword(f) && f.currentPassword != "" && f.currentPassword != stored
    ensures e == Some(NewPasswordRequired) <==>
      WantsChangePassword(f) && f.currentPassword != "" && f.currentPassword == stored && f.newPassword == ""
    ensures e == Some(ConfirmMismatch) <==>
      WantsChangePassword(f) && f.currentPassword != "" && f.currentPassword == stored && f.newPassword != ""
      && f.newPassword != f.confirmPassword
    ensures e == Some(WeakPassword) <==>
      WantsChangePassword(f) && f.currentPassword != "" && f.currentPassword == stored && f.newPassword != ""
      && f.newPassword == f.confirmPassword && !PasswordOk(f.newPassword)
  {
    if !WantsChangePassword(f) then None
    else if f.currentPassword == "" then Some(CurrentPasswordRequired)
    else if f.currentPassword != stored then Some(CurrentPasswordIncorrect)
    else if f.newPassword == "" then Some(NewPasswordRequired)
    else if f.newPassword != f.confirmPassword then Some(ConfirmMismatch)
    else if !PasswordOk(f.newPassword) then Some(WeakPassword)
    else None
  }

  /**
   * The field validators that run before the submission: once any password
   * field is filled in, the current one is required, the new one must meet
   * the rules and the confirmation must be present and equal to it.
   */
  predicate FieldValidatorsPass(f: ProfileForm): (ok: bool)
    ensures ok <==> PasswordCheck(f, f.currentPassword) == None
  {
    WantsChangePassword(f) ==>
      && f.currentPassword != ""
      && PasswordOk(f.newPassword)
      && f.confirmPassword != "" && f.confirmPassword == f.newPassword
  }

  /**
   * After the field validators pass, the submission's own checks can still
   * stop it on exactly one ground: a wrong current password.
   */
  lemma ValidatorsLeaveOnlyStoredPasswordCheck(f: ProfileForm, stored: string)
    requires FieldValidatorsPass(f)
    ensures PasswordCheck(f, stored) == None || PasswordCheck(f, stored) == Some(CurrentPasswordIncorrect)
  {
  }

  /** The record saved: id and email kept, profile fields from the form, password changed when asked. */
  function UpdatedUser(u: User, f: ProfileForm, profileImage: Option<string>, coverImage: Option<string>): (r: User)
    ensures r.id == u.id && r.email == u.email && r.game == u.game
    ensures r.name == f.name.GetOr(u.name) && r.bio == (if f.bio.Some? then f.bio else u.bio)
    ensures r.profileImage == profileImage && r.coverImage == coverImage
    ensures r.password == if WantsChangePassword(f) then f.newPassword else u.password
  {
    u.(name := f.name.GetOr(u.name),
       bio := if f.bio.Some? then f.bio else u.bio,
       profileImage := profileImage,
       coverImage := coverImage,
       password := if WantsChangePassword(f) then f.newPassword else u.password)
  }

  /** `users.map(u => u.id === id ? updated : u)` */
  function ReplaceById(users: seq<User>, id: string, updated: User): (r: seq<User>)
    ensures |r| == |users|
    ensures forall k :: 0 <= k < |users| ==> r[k] == if users[k].id == id then updated else users[k]
  {
    seq(|users|, k requires 0 <= k < |users| => if users[k].id == id then updated else users[k])
  }

  /** Replacing leaves the list alone when no entry carries the id. */
  lemma ReplaceAbsentId(users: seq<User>, id: string, updated: User)
    requires forall k :: 0 <= k < |users| ==> users[k].id != id
    ensures ReplaceById(users, id, updated) == users
  {
  }

  /**
   * `onSubmit`: with no user loaded, or when a password check fails, nothing
   * is written; otherwise every stored entry with the user's id is replaced
   * by the updated record and the rest keep their place.
   */
  method SubmitProfile(user: Option<User>, f: ProfileForm, profileImage: Option<string>,
                       coverImage: Option<string>, users: seq<User>)
    returns (newUsers: seq<User>, outcome: Result)
    ensures user.None? ==> outcome == Rejected(NoUser) && newUsers == users
    ensures user.Some? && PasswordCheck(f, user.value.password).Some? ==>
      outcome == Rejected(PasswordCheck(f, user.value.password).value) && newUsers == users
    ensures user.Some? && PasswordCheck(f, user.value.password).None? ==>
      && outcome == Saved(UpdatedUser(user.value, f, profileImage, coverImage))
      && newUsers == ReplaceById(users, user.value.id, outcome.updated)
  {
    if user.None? {
      return users, Rejected(NoUser);
    }
    var u := user.value;
    var check := PasswordCheck(f, u.password);
    if check.Some? {
      return users, Rejected(check.value);
    }
    var updated := UpdatedUser(u, f, profileImage, coverImage);
    newUsers := ReplaceById(users, u.id, updated);
    outcome := Saved(updated);
  }

  datatype Result = Rejected(error: SubmitError) | Saved(updated: User)

  /** A saved password change leaves a password that meets every rule. */
  lemma SavedPasswordIsStrong(u: User, f: ProfileForm, profileImage: Option<string>, coverImage: Option<string>)
    requires PasswordCheck(f, u.password) == None && WantsChangePassword(f)
    ensures PasswordOk(UpdatedUser(u, f, profileImage, coverImage).password)
  {
  }

  /** The accuracy shown: the rounded percentage of correct answers, 0 with none answered. */
  function AccountAccuracy(g: Option<PartialGame>): (pct: int)
    ensures var answered := if g.Some? then g.value.totalAnswered.GetOr(0) else 0;
      var correct := if g.Some? then g.value.totalCorrect.GetOr(0) else 0;
      && (answered <= 0 ==> pct == 0)
      && (answered > 0 ==> pct == RoundPercent(correct, answered))
      && (answered > 0 && 0 <= correct <= answered ==> 0 <= pct <= 100)
  {
    var answered := if g.Some? then g.value.totalAnswered.GetOr(0) else 0;
    var correct := if g.Some? then g.value.totalCorrect.GetOr(0) else 0;
    if answered > 0 then RoundPercent(correct, answered) else 0
  }
}
