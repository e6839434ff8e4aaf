/**
 * The leaderboard: every stored user with its game statistics filled in
 * from the defaults and its accuracy, ranked by XP from the highest down;
 * plus the avatar initials and the rank styles.
 */
module Leaderboard {
  import opened Common
  import opened Text
  import opened UserTypes
  import opened UserGame

  /** `UserGameStats`: the statistics the leaderboard reads, every field present. */
  datatype BoardGame = BoardGame(
    xp: int,
    level: int,
    quizzesPlayed: int,
    totalQuestions: int,
    totalAnswered: int,
    totalCorrect: int,
    totalWrong: int,
    lastPlayedAt: Option<int>)

  /** `defaultGame()` */
  function DefaultBoardGame(): BoardGame {
    BoardGame(0, 1, 0, 0, 0, 0, 0, None)
  }

  /** `{ ...defaultGame(), ...(u.game ?? {}) }`: each stored field overrides its default. */
  function MergeDefaults(game: Option<PartialGame>): (g: BoardGame)
    ensures game.None? ==> g == DefaultBoardGame()
    ensures game.Some? ==>
      var p := game.value;
      && g.xp == p.xp.GetOr(0) && g.level == p.level.GetOr(1)
      && g.quizzesPlayed == p.quizzesPlayed.GetOr(0)
      && g.totalQuestions == p.totalQuestions.GetOr(0)
      && g.totalAnswered == p.totalAnswered.GetOr(0)
      && g.totalCorrect == p.totalCorrect.GetOr(0)
      && g.totalWrong == p.totalWrong.GetOr(0)
      && g.lastPlayedAt == p.lastPlayedAt
  {
    if game.None? then DefaultBoardGame()
    else
      var p := game.value;
      var d := DefaultBoardGame();
      BoardGame(p.xp.GetOr(d.xp), p.level.GetOr(d.level), p.quizzesPlayed.GetOr(d.quizzesPlayed),
                p.totalQuestions.GetOr(d.totalQuestions), p.totalAnswered.GetOr(d.totalAnswered),
                p.totalCorrect.GetOr(d.totalCorrect), p.totalWrong.GetOr(d.totalWrong), p.lastPlayedAt)
  }

  /**
   * The board and the reward rules read the same XP and counters from a
   * stored record; the level agrees too whenever one is stored, while a
   * missing level shows as 1 here but is derived from the XP there.
   */
  lemma MergeAgreesWithNormalize(p: PartialGame)
    ensures var b, n := MergeDefaults(Some(p)), NormalizeGame(Some(p));
      && b.xp == n.xp && b.quizzesPlayed == n.quizzesPlayed
      && b.totalQuestions == n.totalQuestions && b.totalAnswered == n.totalAnswered
      && b.totalCorrect == n.totalCorrect && b.totalWrong == n.totalWrong
      && b.lastPlayedAt == n.lastPlayedAt
      && (p.level.Some? ==> b.level == n.level)
      && (p.level.None? ==> b.level == 1 && n.level == CalcLevelFromXp(n.xp))
  {
  }

  /** A stored XP of 500 without a level: the board shows level 1, the reward rules level 3. */
  lemma MissingLevelShownAsOne()
    ensures var p := PartialGame(Some(500), None, None, None, None, None, None, None, None);
      MergeDefaults(Some(p)).level == 1 && NormalizeGame(Some(p)).level == 3
  {
    assert IsLevelOf(3, 500);
    LevelUnique(3, CalcLevelFromXp(500), 500);
  }

  /** A user on the board: the record, its merged statistics and its accuracy percentage. */
  datatype Entry = Entry(user: User, game: BoardGame, accuracy: int)

  /** `Math.round(correct / answered * 100)`, or 0 when nothing was answered. */
  function BoardAccuracy(g: BoardGame): (a: int)
    ensures g.totalAnswered <= 0 ==> a == 0
    ensures g.totalAnswered > 0 ==> a == RoundPercent(g.totalCorrect, g.totalAnswered)
    ensures 0 <= g.totalCorrect <= g.totalAnswered ==> 0 <= a <= 100
  {
    if g.totalAnswered > 0 then RoundPercent(g.totalCorrect, g.totalAnswered) else 0
  }

  function EntryOf(u: User): Entry {
    var g := MergeDefaults(u.game);
    Entry(u, g, BoardAccuracy(g))
  }

  /** XP never increases along `s`. */
  predicate XpDescending(s: seq<Entry>) {
    forall i, j :: 0 <= i < j < |s| ==> s[i].game.xp >= s[j].game.xp
  }

  /** Places `e` in front of the first entry with no more XP than it. */
  function InsertByXp(e: Entry, s: seq<Entry>): (r: seq<Entry>)
    ensures multiset(r) == multiset(s) + multiset{e}
    decreases |s|
  {
    if s == [] || e.game.xp >= s[0].game.xp then
      [e] + s
    else
      assert s == [s[0]] + s[1..];
      [s[0]] + InsertByXp(e, s[1..])
  }

  /** Inserting into a list ranked by XP keeps it ranked. */
  lemma {:induction false} InsertKeepsOrder(e: Entry, s: seq<Entry>)
    requires XpDescending(s)
    ensures XpDescending(InsertByXp(e, s))
    decreases |s|
  {
    var r := InsertByXp(e, s);
    if s == [] || e.game.xp >= s[0].game.xp {
      forall i, j | 0 <= i < j < |r| ensures r[i].game.xp >= r[j].game.xp {
        assert r[j] == s[j - 1];
        if i > 0 {
          assert r[i] == s[i - 1];
        } else if j > 1 {
          assert s[0].game.xp >= s[j - 1].game.xp;
        }
      }
    } else {
      var t := InsertByXp(e, s[1..]);
      InsertKeepsOrder(e, s[1..]);
      InsertBelow(e, s[1..], s[0].game.xp);
      assert r == [s[0]] + t;
      forall i, j | 0 <= i < j < |r| ensures r[i].game.xp >= r[j].game.xp {
        assert r[j] == t[j - 1];
        if i > 0 {
          assert r[i] == t[i - 1];
        }
      }
    }
  }

  /** Inserting an entry with at most `b` XP into entries with at most `b` XP gives entries with at most `b` XP. */
  lemma {:induction false} InsertBelow(e: Entry, s: seq<Entry>, b: int)
    requires e.game.xp <= b && forall i :: 0 <= i < |s| ==> s[i].game.xp <= b
    ensures forall i :: 0 <= i < |InsertByXp(e, s)| ==> InsertByXp(e, s)[i].game.xp <= b
    decreases |s|
  {
    var r := InsertByXp(e, s);
    if s == [] || e.game.xp >= s[0].game.xp {
      assert forall i :: 1 <= i < |r| ==> r[i] == s[i - 1];
    } else {
      InsertBelow(e, s[1..], b);
      var t := InsertByXp(e, s[1..]);
      assert r == [s[0]] + t;
      assert forall i :: 1 <= i < |r| ==> r[i] == t[i - 1];
    }
  }

  /** The comparator sort `(a, b) => b.xp - a.xp`, stable, as an insertion sort. */
  function SortByXp(s: seq<Entry>): (r: seq<Entry>)
    ensures multiset(r) == multiset(s)
    ensures XpDescending(r)
    decreases |s|
  {
    if s == [] then []
    else
      assert s == [s[0]] + s[1..];
      InsertKeepsOrder(s[0], SortByXp(s[1..]));
      InsertByXp(s[0], SortByXp(s[1..]))
  }

  /** `ranked`: the users' entries ordered by XP, highest first. */
  function Ranked(users: seq<User>): (r: seq<Entry>)
    ensures |r| == |users|
    ensures XpDescending(r)
    ensures multiset(r) == multiset(seq(|users|, i requires 0 <= i < |users| => EntryOf(users[i])))
  {
    var entries := seq(|users|, i requires 0 <= i < |users| => EntryOf(users[i]));
    var r := SortByXp(entries);
    assert |r| == |multiset(r)| == |multiset(entries)| == |entries|;
    r
  }

  /** The users of a list of entries, in order. */
  function UsersOf(s: seq<Entry>): (us: seq<User>)
    ensures |us| == |s| && forall i :: 0 <= i < |s| ==> us[i] == s[i].user
  {
    seq(|s|, i requires 0 <= i < |s| => s[i].user)
  }

  /** The users of a non-empty entry list: its first entry's user and the users of the rest. */
  lemma UsersCons(s: seq<Entry>)
    requires s != []
    ensures multiset(UsersOf(s)) == multiset{s[0].user} + multiset(UsersOf(s[1..]))
  {
    assert UsersOf(s) == [s[0].user] + UsersOf(s[1..]);
  }

  lemma {:induction false} InsertKeepsUsers(e: Entry, s: seq<Entry>)
    ensures multiset(UsersOf(InsertByXp(e, s))) == multiset(UsersOf(s)) + multiset{e.user}
    decreases |s|
  {
    var r := InsertByXp(e, s);
    if s == [] || e.game.xp >= s[0].game.xp {
      assert r == [e] + s && r[1..] == s;
      UsersCons(r);
    } else {
      var t := InsertByXp(e, s[1..]);
      assert r == [s[0]] + t && r[1..] == t;
      InsertKeepsUsers(e, s[1..]);
      UsersCons(r);
      UsersCons(s);
    }
  }

  /** `SortByXp` of a non-empty list inserts its first entry into the sorted rest. */
  lemma SortStep(s: seq<Entry>)
    requires s != []
    ensures SortByXp(s) == InsertByXp(s[0], SortByXp(s[1..]))
  {
  }

  lemma {:induction false} SortKeepsUsers(s: seq<Entry>)
    ensures multiset(UsersOf(SortByXp(s))) == multiset(UsersOf(s))
    decreases |s|
  {
    if s != [] {
      SortStep(s);
      SortKeepsUsers(s[1..]);
      InsertKeepsUsers(s[0], SortByXp(s[1..]));
      UsersCons(s);
    }
  }

  /** The board lists every stored user exactly as often as it is stored, each with its own entry. */
  lemma RankedIsPermutation(users: seq<User>)
    ensures multiset(UsersOf(Ranked(users))) == multiset(users)
    ensures forall e :: e in Ranked(users) ==> e == EntryOf(e.user) && e.user in users
  {
    var entries := seq(|users|, i requires 0 <= i < |users| => EntryOf(users[i]));
    SortKeepsUsers(entries);
    assert UsersOf(entries) == users;
    forall e | e in Ranked(users) ensures e == EntryOf(e.user) && e.user in users {
      assert e in multiset(entries);
      var i :| 0 <= i < |entries| && entries[i] == e;
      assert users[i] == e.user;
    }
  }

  /** `getInitials`: "??" for a missing or empty name, else the capitals of its first two words. */
  function Initials(name: Option<string>): (r: string)
    ensures (name.None? || name.value == "") ==> r == "??"
    ensures name.Some? && name.value != "" ==>
      var ws := Words(name.value);
      && |r| == Min(2, |ws|)
      && forall i :: 0 <= i < |r| ==> r[i] == UpperChar(ws[i][0])
  {
    if name.None? || name.value == "" then "??"
    else
      var ws := Words(name.value);
      var parts := ws[..Min(2, |ws|)];
      seq(|parts|, i requires 0 <= i < |parts| => UpperChar(parts[i][0]))
  }

  /** A run of non-whitespace followed by whitespace or the end is one word long. */
  lemma {:induction false} WordLengthOfRun(w: string, rest: string)
    requires NoSpace(w) && (rest == [] || IsSpace(rest[0]))
    ensures WordLength(w + rest) == |w|
    decreases |w|
  {
    if w != [] {
      assert (w + rest)[1..] == w[1..] + rest;
      WordLengthOfRun(w[1..], rest);
    }
  }

  /** A word followed by whitespace or the end is the first of the words. */
  lemma WordsCons(w: string, rest: string)
    requires |w| >= 1 && NoSpace(w) && (rest == [] || IsSpace(rest[0]))
    ensures Words(w + rest) == [w] + Words(rest)
  {
    var s := w + rest;
    assert s[0] == w[0];
    assert LeadingSpaces(s) == 0;
    assert s[0..] == s;
    WordLengthOfRun(w, rest);
    assert s[..|w|] == w && s[|w|..] == rest;
  }

  /** A leading whitespace character starts no word. */
  lemma WordsSkipSpace(c: char, s: string)
    requires IsSpace(c)
    ensures Words([c] + s) == Words(s)
  {
    var t := [c] + s;
    assert t[1..] == s;
    assert LeadingSpaces(t) == 1 + LeadingSpaces(s);
    assert t[LeadingSpaces(t)..] == s[LeadingSpaces(s)..];
  }

  /** Two words separated by one space are split into those two words. */
  lemma WordsOfTwo(a: string, b: string)
    requires |a| >= 1 && |b| >= 1 && NoSpace(a) && NoSpace(b)
    ensures Words(a + " " + b) == [a, b]
  {
    var n := a + " " + b;
    assert n == a + ([' '] + b);
    WordsCons(a, [' '] + b);
    WordsSkipSpace(' ', b);
    WordsOfOneWord(b);
    assert [a] + [b] == [a, b];
  }

  /** A single word is split into itself. */
  lemma WordsOfOneWord(w: string)
    requires |w| >= 1 && NoSpace(w)
    ensures Words(w) == [w]
  {
    assert w + [] == w;
    WordsCons(w, []);
    assert Words([]) == [];
  }

  /** Two words separated by one space give their two capitals. */
  lemma InitialsOfTwoWords(a: string, b: string)
    requires |a| >= 1 && |b| >= 1 && NoSpace(a) && NoSpace(b)
    ensures Initials(Some(a + " " + b)) == [UpperChar(a[0]), UpperChar(b[0])]
  {
    var n := a + " " + b;
    WordsOfTwo(a, b);
    var r := Initials(Some(n));
    assert n != "" by { assert |n| > 0; }
    assert |r| == 2 && r[0] == UpperChar(a[0]) && r[1] == UpperChar(b[0]);
  }

  /** A name of whitespace only is truthy but has no words, so it shows no initials. */
  lemma InitialsOfBlankName()
    ensures Initials(Some("   ")) == ""
  {
    assert AllSpace("   ");
  }

  /** `getRankColor` */
  function RankColor(index: int): (c: string)
    ensures c == "text-muted-foreground text-sm" <==> !(0 <= index <= 2)
    ensures c == "text-yellow-500 font-semibold text-xl" <==> index == 0
  {
    if index == 0 then "text-yellow-500 font-semibold text-xl"
    else if index == 1 then "text-gray-400 font-semibold text-lg"
    else if index == 2 then "text-amber-700 font-semibold text-md"
    else "text-muted-foreground text-sm"
  }

  /** The first three places each have their own style; every other place shares one. */
  lemma RankColors(i: int, j: int)
    ensures 0 <= i < j <= 3 ==> RankColor(i) != RankColor(j)
    ensures i >= 3 && j >= 3 ==> RankColor(i) == RankColor(j)
    ensures i < 0 ==> RankColor(i) == RankColor(3)
  {
    assert RankColor(0)[5] != RankColor(1)[5];
    assert RankColor(0)[5] != RankColor(2)[5];
    assert RankColor(1)[5] != RankColor(2)[5];
    assert RankColor(0)[5] != RankColor(3)[5];
    assert RankColor(1)[5] != RankColor(3)[5];
    assert RankColor(2)[5] != RankColor(3)[5];
  }
}
