/**
 * Registration: the form's field rules (name required, the email pattern
 * `^\S+@\S+$`, the password rules, a matching confirmation) and the
 * submission that rejects an email already in use and otherwise appends
 * the new user.
 */
module RegisterPage {
  import opened Text
  import opened Common
  import opened UserTypes
  import opened Passwords

  /**
   * `^\S+@\S+$` read as written: the string splits at some `@` into a
   * non-empty run of non-whitespace, the `@`, and another such run.
   */
  predicate MatchesEmailPattern(s: string) {
    exists i :: 0 < i < |s| - 1 && s[i] == '@' && NoSpace(s[..i]) && NoSpace(s[i + 1..])
  }

  /** The pattern checked directly: no whitespace anywhere and an `@` that is neither first nor last. */
  predicate IsEmailShaped(s: string) {
    NoSpace(s) && exists i :: 0 < i < |s| - 1 && s[i] == '@'
  }

  lemma EmailPatternIff(s: string)
    ensures MatchesEmailPattern(s) <==> IsEmailShaped(s)
  {
    if MatchesEmailPattern(s) {
      var i :| 0 < i < |s| - 1 && s[i] == '@' && NoSpace(s[..i]) && NoSpace(s[i + 1..]);
      forall k | 0 <= k < |s| ensures !IsSpace(s[k]) {
        if k < i { assert s[k] == s[..i][k]; }
        else if k > i { assert s[k] == s[i + 1..][k - i - 1]; }
      }
    }
    if IsEmailShaped(s) {
      var i :| 0 < i < |s| - 1 && s[i] == '@';
      assert NoSpace(s[..i]) && NoSpace(s[i + 1..]);
    }
  }

  /** The four field rules the form checks before it submits. */
  predicate RegistrationFormValid(name: string, email: string, password: string, confirm: string) {
    && name != ""
    && email != "" && MatchesEmailPattern(email)
    && password != "" && PasswordOk(password)
    && confirm != "" && confirm == password
  }

  /** `existingUsers.some(user => user.email === email)` */
  predicate EmailTaken(users: seq<User>, email: string) {
    exists k :: 0 <= k < |users| && users[k].email == email
  }

  predicate UniqueEmails(users: seq<User>) {
    forall i, j :: 0 <= i < j < |users| ==> users[i].email != users[j].email
  }

  /** `{ id, name, email, password }` with no profile data and no game statistics. */
  function NewUser(id: string, name: string, email: string, password: string): User {
    User(id, name, email, password, None, None, None, None)
  }

  /**
   * The delayed body of `onSubmit`: a taken email leaves the list as it was;
   * otherwise the new user is appended. `id` is the generated identifier.
   */
  method SubmitRegistration(users: seq<User>, id: string, name: string, email: string, password: string)
    returns (newUsers: seq<User>, registered: bool)
    ensures registered <==> !EmailTaken(users, email)
    ensures !registered ==> newUsers == users
    ensures registered ==> newUsers == users + [NewUser(id, name, email, password)]
    ensures UniqueEmails(users) ==> UniqueEmails(newUsers)
  {
    if EmailTaken(users, email) {
      return users, false;
    }
    newUsers := users + [NewUser(id, name, email, password)];
    registered := true;
  }

  /**
   * `handleSubmit(onSubmit)`: the form runs the submission only when every
   * field rule holds, so a user it appends has a well-formed email and a
   * password that meets the rules.
   */
  method SubmitForm(users: seq<User>, id: string, name: string, email: string, password: string, confirm: string)
    returns (newUsers: seq<User>, registered: bool)
    ensures registered <==> RegistrationFormValid(name, email, password, confirm) && !EmailTaken(users, email)
    ensures !registered ==> newUsers == users
    ensures registered ==> newUsers == users + [NewUser(id, name, email, password)]
    ensures registered ==>
      var u := newUsers[|users|];
      u.name != "" && IsEmailShaped(u.email) && PasswordOk(u.password)
    ensures UniqueEmails(users) ==> UniqueEmails(newUsers)
  {
    if !RegistrationFormValid(name, email, password, confirm) {
      return users, false;
    }
    EmailPatternIff(email);
    newUsers, registered := SubmitRegistration(users, id, name, email, password);
  }

  /** Registering twice with one email: the second attempt is refused. */
  lemma SecondRegistrationRefused(users: seq<User>, id: string, name: string, email: string, password: string)
    ensures EmailTaken(users + [NewUser(id, name, email, password)], email)
  {
    var after := users + [NewUser(id, name, email, password)];
    assert after[|users|].email == email;
  }
}
