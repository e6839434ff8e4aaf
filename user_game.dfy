/**
 * The XP, level and token rules: triangular level thresholds, the level a
 * given XP total reaches, difficulty-weighted XP per finished quiz, and the
 * two updates of a user's stored game statistics (spending tokens and
 * applying a quiz result).
 *
 * XP is computed in integer tenths: the multipliers 1.0, 1.4 and 2.0 become
 * 10, 14 and 20.
 */
module UserGame {
  import opened Common
  import opened Text
  import opened UserTypes
  import opened QuizSlice

  /** Complete game statistics, as `normalizeGame` returns them. */
  datatype GameStats = GameStats(
    xp: int,
    level: int,
    tokens: int,
    quizzesPlayed: int,
    totalQuestions: int,
    totalAnswered: int,
    totalCorrect: int,
    totalWrong: int,
    lastPlayedAt: Option<int>)

  /** `DEFAULT_GAME` */
  function DefaultGame(): GameStats {
    GameStats(0, 1, 0, 0, 0, 0, 0, 0, None)
  }

  /** The statistics as they are persisted inside the user record. */
  function ToPartial(g: GameStats): PartialGame {
    PartialGame(Some(g.xp), Some(g.level), Some(g.tokens), Some(g.quizzesPlayed),
                Some(g.totalQuestions), Some(g.totalAnswered), Some(g.totalCorrect),
                Some(g.totalWrong), g.lastPlayedAt)
  }

  /* ---------- levels ---------- */

  /** The XP at which `level` starts: 0 up to level 1, then the triangular `100·(L−1)·L/2`. */
  function XpRequiredForLevel(level: int): (xp: int)
    ensures level <= 1 ==> xp == 0
    ensures level >= 1 ==> xp == 50 * (level - 1) * level
  {
    if level <= 1 then 0
    else
      assert 100 * (level - 1) * level == 2 * (50 * (level - 1) * level);
      DivExact(50 * (level - 1) * level, 0, 2);
      (100 * (level - 1) * level) / 2
  }

  /** The XP span of `level`. */
  function XpRangeForLevel(level: int): (span: int)
    ensures span >= 100
    ensures level >= 1 ==> span == 100 * level
  {
    Max(1, level) * 100
  }

  /** For every level from 1 on, the next threshold is the current one plus the level's span. */
  lemma ThresholdStep(level: int)
    requires level >= 1
    ensures XpRequiredForLevel(level + 1) == XpRequiredForLevel(level) + XpRangeForLevel(level)
  {
    assert 50 * level * (level + 1) == 50 * (level - 1) * level + 100 * level;
  }

  /** Thresholds rise strictly from level 1 on. */
  lemma {:induction false} ThresholdMonotone(a: int, b: int)
    requires 1 <= a < b
    ensures XpRequiredForLevel(a) < XpRequiredForLevel(b)
    decreases b - a
  {
    ThresholdStep(b - 1);
    if a < b - 1 {
      ThresholdMonotone(a, b - 1);
    }
  }

  /** `lv` is the level of the XP total `xp`. */
  predicate IsLevelOf(lv: int, xp: int) {
    lv >= 1 && XpRequiredForLevel(lv) <= Max(0, xp) < XpRequiredForLevel(lv + 1)
  }

  /** The largest level from `lv` up whose threshold `x` reaches. */
  function LevelFrom(lv: int, x: int): (r: int)
    requires lv >= 1 && XpRequiredForLevel(lv) <= x
    ensures r >= lv && XpRequiredForLevel(r) <= x < XpRequiredForLevel(r + 1)
    decreases x - XpRequiredForLevel(lv)
  {
    ThresholdStep(lv);
    if XpRequiredForLevel(lv + 1) <= x then LevelFrom(lv + 1, x) else lv
  }

  /**
   * `calcLevelFromXp`: the largest level whose threshold the XP total,
   * floored at 0, reaches. The source's closed form `⌊(1 + √(1 + 8·xp/100))/2⌋`
   * computes the same value; here it is characterised instead.
   */
  function CalcLevelFromXp(xp: int): (lv: int)
    ensures IsLevelOf(lv, xp)
  {
    LevelFrom(1, Max(0, xp))
  }

  /** At most one level fits a given XP total. */
  lemma LevelUnique(a: int, b: int, xp: int)
    requires IsLevelOf(a, xp) && IsLevelOf(b, xp)
    ensures a == b
  {
    if a < b {
      if a + 1 < b { ThresholdMonotone(a + 1, b); }
    } else if b < a {
      if b + 1 < a { ThresholdMonotone(b + 1, a); }
    }
  }

  /** More XP never means a lower level. */
  lemma LevelMonotone(x: int, y: int)
    requires x <= y
    ensures CalcLevelFromXp(x) <= CalcLevelFromXp(y)
  {
    var a, b := CalcLevelFromXp(x), CalcLevelFromXp(y);
    if a > b {
      if b + 1 < a { ThresholdMonotone(b + 1, a); }
    }
  }

  /** Reaching a threshold exactly gives that level. */
  lemma LevelOfThreshold(level: int)
    requires level >= 1
    ensures CalcLevelFromXp(XpRequiredForLevel(level)) == level
  {
    ThresholdMonotone(level, level + 1);
    LevelUnique(CalcLevelFromXp(XpRequiredForLevel(level)), level, XpRequiredForLevel(level));
  }

  /* ---------- XP gain ---------- */

  /** `difficultyMultiplier`, in tenths, chosen case-insensitively. */
  function DifficultyMultiplierTenths(difficulty: string): (m: int)
    ensures m == 10 || m == 14 || m == 20
    ensures m == 20 <==> ToLower(difficulty) == "hard"
    ensures m == 14 <==> ToLower(difficulty) == "medium"
  {
    var d := ToLower(difficulty);
    if d == "hard" then 20 else if d == "medium" then 14 else 10
  }

  /** Two spellings that differ only in case weigh the same. */
  lemma MultiplierIgnoresCase(a: string, b: string)
    requires ToLower(a) == ToLower(b)
    ensures DifficultyMultiplierTenths(a) == DifficultyMultiplierTenths(b)
  {
  }

  /** The XP one answer earns, in tenths: ten or two times its multiplier. */
  function AnswerTenths(a: AnswerRecord): (t: int)
    ensures a.correct ==> t == 10 * DifficultyMultiplierTenths(a.difficulty)
    ensures !a.correct ==> t == 2 * DifficultyMultiplierTenths(a.difficulty)
    ensures 20 <= t <= 200 && t % 2 == 0
  {
    (if a.correct then 10 else 2) * DifficultyMultiplierTenths(a.difficulty)
  }

  /** The running sums of the loop in `calcXpGain`: XP in tenths and correct answers. */
  datatype Tally = Tally(tenths: int, correct: int)

  /** Some key of a non-empty set: the one the tally visits first. */
  ghost function Pick(keys: set<string>): (k: string)
    requires keys != {}
    ensures k in keys
  {
    var k :| k in keys; k
  }

  /** One answer's contribution to the tally. */
  function Count(t: Tally, a: AnswerRecord): Tally {
    Tally(t.tenths + AnswerTenths(a), t.correct + (if a.correct then 1 else 0))
  }

  /** The tally of the answers under `keys`, in whatever order they are visited. */
  ghost function TallyOver(m: map<string, AnswerRecord>, keys: set<string>): Tally
    requires keys <= m.Keys
    decreases |keys|
  {
    if keys == {} then Tally(0, 0)
    else
      var k := Pick(keys);
      Count(TallyOver(m, keys - {k}), m[k])
  }

  /** The tally does not depend on which answer is visited first. */
  lemma {:induction false} TallyRemove(m: map<string, AnswerRecord>, keys: set<string>, k: string)
    requires keys <= m.Keys && k in keys
    ensures TallyOver(m, keys) == Count(TallyOver(m, keys - {k}), m[k])
    decreases |keys|
  {
    var j := Pick(keys);
    if j != k {
      TallyRemove(m, keys - {j}, k);
      TallyRemove(m, keys - {k}, j);
      assert keys - {j} - {k} == keys - {k} - {j};
    }
  }

  /** Each answer adds between 20 and 200 tenths and an even number of them. */
  lemma {:induction false} TallyBounds(m: map<string, AnswerRecord>, keys: set<string>)
    requires keys <= m.Keys
    ensures 0 <= TallyOver(m, keys).correct <= |keys|
    ensures 20 * |keys| <= TallyOver(m, keys).tenths <= 200 * |keys|
    ensures TallyOver(m, keys).tenths % 2 == 0
    decreases |keys|
  {
    if keys != {} {
      var k := Pick(keys);
      var rest := keys - {k};
      TallyBounds(m, rest);
      assert |rest| == |keys| - 1;
      var t, a := TallyOver(m, rest), AnswerTenths(m[k]);
      assert TallyOver(m, keys).tenths == t.tenths + a;
      EvenSum(t.tenths, a);
    }
  }

  lemma EvenSum(x: int, y: int)
    requires x % 2 == 0 && y % 2 == 0
    ensures (x + y) % 2 == 0
  {
  }

  /**
   * What `calcXpGain` returns: 0 with no answers; otherwise the rounded sum
   * of the per-answer XP, plus 20 at an accuracy of at least 80 per cent and
   * 10 for finishing before the timeout.
   */
  ghost function XpGainSpec(m: map<string, AnswerRecord>, finishedBeforeTimeout: bool): int {
    if |m| == 0 then 0
    else
      var t := TallyOver(m, m.Keys);
      var total := t.tenths + (if 5 * t.correct >= 4 * |m| then 200 else 0) + (if finishedBeforeTimeout then 100 else 0);
      (total + 5) / 10
  }

  /**
   * The loop of `calcXpGain`: visits the answers in an arbitrary order,
   * accumulating the XP in tenths and the correct count.
   */
  method TallyAnswers(m: map<string, AnswerRecord>) returns (tenths: int, correct: int)
    ensures Tally(tenths, correct) == TallyOver(m, m.Keys)
  {
    tenths, correct := 0, 0;
    var remaining := m.Keys;
    ghost var visited: set<string> := {};
    while remaining != {}
      invariant remaining + visited == m.Keys && remaining !! visited
      invariant TallyOver(m, visited) == Tally(tenths, correct)
      decreases |remaining|
    {
      var k :| k in remaining;
      MoveKey(m.Keys, remaining, visited, k);
      tenths, correct := AddAnswer(tenths, correct, m[k]);
      VisitOne(m, visited, k);
      remaining := remaining - {k};
      visited := visited + {k};
    }
  }

  /** Moving a key from the keys still to visit to the visited ones keeps the two a partition. */
  lemma MoveKey(keys: set<string>, remaining: set<string>, visited: set<string>, k: string)
    requires remaining + visited == keys && remaining !! visited && k in remaining
    ensures (remaining - {k}) + (visited + {k}) == keys && (remaining - {k}) !! (visited + {k})
    ensures visited <= keys && k in keys && k !in visited
    ensures |remaining - {k}| < |remaining|
  {
  }

  /** One turn of the loop: the answer's XP in tenths, and one more correct answer when it is correct. */
  method AddAnswer(tenths: int, correct: int, a: AnswerRecord) returns (tenths': int, correct': int)
    ensures Tally(tenths', correct') == Count(Tally(tenths, correct), a)
  {
    var mult := DifficultyMultiplierTenths(a.difficulty);
    if a.correct {
      tenths', correct' := tenths + 10 * mult, correct + 1;
    } else {
      tenths', correct' := tenths + 2 * mult, correct;
    }
  }

  /** Visiting one more answer extends the tally by that answer. */
  lemma VisitOne(m: map<string, AnswerRecord>, visited: set<string>, k: string)
    requires visited <= m.Keys && k in m && k !in visited
    ensures TallyOver(m, visited + {k}) == Count(TallyOver(m, visited), m[k])
  {
    TallyRemove(m, visited + {k}, k);
    assert visited + {k} - {k} == visited;
  }

  /**
   * `calcXpGain`: 0 with no answers; otherwise the tally of the answers plus
   * the accuracy and timeout bonuses, rounded.
   */
  method CalcXpGain(m: map<string, AnswerRecord>, finishedBeforeTimeout: bool) returns (xp: int)
    ensures xp == XpGainSpec(m, finishedBeforeTimeout)
  {
    var answered := |m|;
    if answered == 0 {
      return 0;
    }
    var tenths, correct := TallyAnswers(m);
    if 5 * correct >= 4 * answered {
      tenths := tenths + 200;
    }
    if finishedBeforeTimeout {
      tenths := tenths + 100;
    }
    xp := (tenths + 5) / 10;
  }

  /**
   * Every term is an even number of tenths, so the unrounded gain is never
   * a tie: `(t + 5) / 10` is the nearest integer whichever way ties go. Each
   * answer earns between 2 and 20 XP, and the bonuses add at most 30.
   */
  lemma XpGainBounds(m: map<string, AnswerRecord>, finishedBeforeTimeout: bool)
    ensures |m| == 0 ==> XpGainSpec(m, finishedBeforeTimeout) == 0
    ensures |m| > 0 ==> 2 * |m| <= XpGainSpec(m, finishedBeforeTimeout) <= 20 * |m| + 30
    ensures |m| > 0 ==>
      var t := TallyOver(m, m.Keys);
      var total := t.tenths + (if 5 * t.correct >= 4 * |m| then 200 else 0) + (if finishedBeforeTimeout then 100 else 0);
      total % 10 != 5 && 10 * XpGainSpec(m, finishedBeforeTimeout) - 5 < total < 10 * XpGainSpec(m, finishedBeforeTimeout) + 5
  {
    if |m| > 0 {
      assert |m.Keys| == |m|;
      TallyBounds(m, m.Keys);
    }
  }

  /** The tally of answers that all carry one multiplier `mult`. */
  lemma {:induction false} TallyUniform(m: map<string, AnswerRecord>, keys: set<string>, mult: int)
    requires keys <= m.Keys
    requires forall k :: k in keys ==> DifficultyMultiplierTenths(m[k].difficulty) == mult
    ensures TallyOver(m, keys).tenths == mult * (2 * |keys| + 8 * TallyOver(m, keys).correct)
    decreases |keys|
  {
    if keys != {} {
      var k := Pick(keys);
      var rest := TallyOver(m, keys - {k});
      TallyUniform(m, keys - {k}, mult);
      assert |keys - {k}| == |keys| - 1;
      var w := 2 * |keys - {k}| + 8 * rest.correct;
      if m[k].correct {
        assert mult * w + 10 * mult == mult * (w + 10);
      } else {
        assert mult * w + 2 * mult == mult * (w + 2);
      }
    }
  }

  /** Five correct easy answers, finished early: 50 + 20 + 10 = 80 XP. */
  lemma ExampleFiveCorrectEasy(m: map<string, AnswerRecord>)
    requires |m| == 5
    requires forall k :: k in m ==> m[k].correct && m[k].difficulty == "easy"
    ensures XpGainSpec(m, true) == 80
  {
    assert |m.Keys| == 5;
    LowercaseName("easy");
    TallyUniform(m, m.Keys, 10);
    AllCorrect(m, m.Keys);
  }

  /** Two correct and three wrong hard answers, not early: 40 + 12 = 52 XP, no accuracy bonus. */
  lemma ExampleTwoOfFiveHard(m: map<string, AnswerRecord>)
    requires |m| == 5
    requires forall k :: k in m ==> m[k].difficulty == "hard"
    requires |CorrectKeys(m)| == 2
    ensures XpGainSpec(m, false) == 52
  {
    assert |m.Keys| == 5;
    TallyCountsCorrect(m, m.Keys);
    assert CorrectKeys(m) == set k | k in m.Keys && m[k].correct;
    LowercaseName("hard");
    TallyUniform(m, m.Keys, 20);
  }

  /** The correct count of the tally is the number of answers recorded as correct. */
  lemma {:induction false} TallyCountsCorrect(m: map<string, AnswerRecord>, keys: set<string>)
    requires keys <= m.Keys
    ensures TallyOver(m, keys).correct == |set k | k in keys && m[k].correct|
    decreases |keys|
  {
    if keys != {} {
      var k := Pick(keys);
      TallyCountsCorrect(m, keys - {k});
      var before := set j | j in keys - {k} && m[j].correct;
      if m[k].correct {
        assert (set j | j in keys && m[j].correct) == before + {k};
      } else {
        assert (set j | j in keys && m[j].correct) == before;
      }
    }
  }

  /** A name written without capitals lowers to itself. */
  lemma LowercaseName(s: string)
    requires forall i :: 0 <= i < |s| ==> !('A' <= s[i] <= 'Z')
    ensures ToLower(s) == s
  {
  }

  lemma {:induction false} AllCorrect(m: map<string, AnswerRecord>, keys: set<string>)
    requires keys <= m.Keys
    requires forall k :: k in keys ==> m[k].correct
    ensures TallyOver(m, keys).correct == |keys|
    decreases |keys|
  {
    if keys != {} {
      var k := Pick(keys);
      AllCorrect(m, keys - {k});
      assert |keys - {k}| == |keys| - 1;
    }
  }

  /* ---------- stored statistics ---------- */

  /**
   * `normalizeGame`: missing counters read as 0, a missing level as the
   * level of the XP, and tokens are floored at 0.
   */
  function NormalizeGame(input: Option<PartialGame>): (g: GameStats)
    ensures g.tokens >= 0
    ensures input.None? ==> g == DefaultGame()
  {
    var p := input.GetOr(PartialGame(None, None, None, None, None, None, None, None, None));
    var xp := p.xp.GetOr(0);
    assert CalcLevelFromXp(0) == 1 by { LevelOfThreshold(1); }
    GameStats(
      xp,
      p.level.GetOr(CalcLevelFromXp(xp)),
      Max(0, p.tokens.GetOr(0)),
      p.quizzesPlayed.GetOr(0),
      p.totalQuestions.GetOr(0),
      p.totalAnswered.GetOr(0),
      p.totalCorrect.GetOr(0),
      p.totalWrong.GetOr(0),
      p.lastPlayedAt)
  }

  /** Each field of the normalised statistics comes from its own stored field alone. */
  lemma NormalizeFields(p: PartialGame)
    ensures var g := NormalizeGame(Some(p));
      && g.xp == p.xp.GetOr(0)
      && (p.level.Some? ==> g.level == p.level.value)
      && (p.level.None? ==> IsLevelOf(g.level, g.xp))
      && (p.tokens.Some? && p.tokens.value >= 0 ==> g.tokens == p.tokens.value)
      && (p.tokens.None? || p.tokens.value < 0 ==> g.tokens == 0)
      && g.quizzesPlayed == p.quizzesPlayed.GetOr(0)
      && g.totalQuestions == p.totalQuestions.GetOr(0)
      && g.totalAnswered == p.totalAnswered.GetOr(0)
      && g.totalCorrect == p.totalCorrect.GetOr(0)
      && g.totalWrong == p.totalWrong.GetOr(0)
      && g.lastPlayedAt == p.lastPlayedAt
  {
  }

  /** Persisting complete statistics and normalising them back gives them unchanged. */
  lemma NormalizeRoundTrip(g: GameStats)
    requires g.tokens >= 0
    ensures NormalizeGame(Some(ToPartial(g))) == g
  {
  }

  /** Normalising is idempotent once the result is persisted. */
  lemma NormalizeIdempotent(p: Option<PartialGame>)
    ensures NormalizeGame(Some(ToPartial(NormalizeGame(p)))) == NormalizeGame(p)
  {
    NormalizeRoundTrip(NormalizeGame(p));
  }

  /** The statistics the two updates start from: `normalizeGame(user.game ?? DEFAULT_GAME)`. */
  function GameOf(u: User): (g: GameStats)
    ensures u.game.None? ==> g == DefaultGame()
    ensures u.game.Some? ==> g == NormalizeGame(u.game)
  {
    NormalizeRoundTrip(DefaultGame());
    NormalizeGame(Some(u.game.GetOr(ToPartial(DefaultGame()))))
  }

  /** `{ ...user, game: next }` */
  function WithGame(u: User, g: GameStats): User {
    u.(game := Some(ToPartial(g)))
  }

  /* ---------- spending tokens ---------- */

  datatype SpendResult = SpendResult(updatedUser: User, nextGame: GameStats)

  /**
   * `spendUserTokens` over the users list: rejects a non-positive amount,
   * an unknown user or a balance below the amount, writing nothing; otherwise
   * takes the amount off the user's tokens and replaces that user only.
   */
  method SpendUserTokens(users: seq<User>, userId: string, amount: int)
    returns (newUsers: seq<User>, result: Option<SpendResult>)
    ensures var idx := FindIndexById(users, userId);
      result.None? <==> amount <= 0 || idx < 0 || GameOf(users[idx]).tokens < amount
    ensures result.None? ==> newUsers == users
    ensures result.Some? ==>
      var idx := FindIndexById(users, userId);
      var g := GameOf(users[idx]);
      && 0 <= idx
      && result.value.nextGame == g.(tokens := g.tokens - amount)
      && result.value.nextGame.tokens >= 0
      && result.value.updatedUser == WithGame(users[idx], result.value.nextGame)
      && newUsers == users[idx := result.value.updatedUser]
  {
    newUsers := users;
    var spend := Max(0, amount);
    if spend <= 0 {
      return newUsers, None;
    }
    var idx := FindIndexById(users, userId);
    if idx < 0 {
      return newUsers, None;
    }
    var user := users[idx];
    var game := GameOf(user);
    if game.tokens < spend {
      return newUsers, None;
    }
    var nextGame := game.(tokens := game.tokens - spend);
    var updatedUser := WithGame(user, nextGame);
    newUsers := newUsers[idx := updatedUser];
    result := Some(SpendResult(updatedUser, nextGame));
  }

  /**
   * After a successful spend the stored statistics read back as the new
   * ones, tokens and all; spending the whole balance leaves exactly 0, and
   * every other user is as before.
   */
  lemma SpendReadsBack(users: seq<User>, idx: int, amount: int)
    requires 0 <= idx < |users| && 0 < amount <= GameOf(users[idx]).tokens
    ensures var g := GameOf(users[idx]);
      var after := users[idx := WithGame(users[idx], g.(tokens := g.tokens - amount))];
      && GameOf(after[idx]) == g.(tokens := g.tokens - amount)
      && GameOf(after[idx]).tokens + amount == g.tokens
      && (amount == g.tokens ==> GameOf(after[idx]).tokens == 0)
      && after[idx].id == users[idx].id
      && forall k :: 0 <= k < |users| && k != idx ==> after[k] == users[k]
  {
    var g := GameOf(users[idx]);
    NormalizeRoundTrip(g.(tokens := g.tokens - amount));
  }

  /* ---------- applying a quiz result ---------- */

  datatype ApplyResult = ApplyResult(
    updatedUser: User,
    xpGain: int,
    nextGame: GameStats,
    tokenGain: int,
    perfectTokenGain: int,
    levelUpTokenGain: int,
    levelGained: int,
    accuracy: real)

  /** The perfect-run test of `applyQuizResultToUser`, on the clamped counts. */
  predicate PerfectRun(total: int, answered: int, correct: int, wrong: int) {
    total > 0 && answered == total && correct == total && wrong == 0
  }

  /**
   * `applyQuizResultToUser` over the users list: unknown users give `None`
   * and no write. Otherwise the XP grows by the quiz's gain, the level is
   * recomputed from it, one token is awarded for a perfect run and five per
   * level gained over the stored level, the running totals grow by the
   * counts floored at 0, and the user is replaced in place.
   */
  method ApplyQuizResultToUser(
    users: seq<User>, userId: string,
    totalQuestions: int, answered: int, correct: int, wrong: int,
    finishedBeforeTimeout: bool, answers: map<string, AnswerRecord>, now: int)
    returns (newUsers: seq<User>, result: Option<ApplyResult>)
    ensures result.None? <==> FindIndexById(users, userId) < 0
    ensures result.None? ==> newUsers == users
    ensures result.Some? ==>
      var idx := FindIndexById(users, userId);
      var g := GameOf(users[idx]);
      var r := result.value;
      var n := r.nextGame;
      var perfect := PerfectRun(Max(0, totalQuestions), Max(0, answered), Max(0, correct), Max(0, wrong));
      && 0 <= idx
      && r.xpGain == XpGainSpec(answers, finishedBeforeTimeout)
      && n.xp == g.xp + r.xpGain
      && n.level == CalcLevelFromXp(n.xp)
      && r.levelGained == Max(0, n.level - g.level)
      && r.perfectTokenGain == (if perfect then 1 else 0)
      && r.levelUpTokenGain == 5 * r.levelGained
      && r.tokenGain == r.perfectTokenGain + r.levelUpTokenGain
      && n.tokens == g.tokens + r.tokenGain
      && n.quizzesPlayed == g.quizzesPlayed + 1
      && n.totalQuestions == g.totalQuestions + Max(0, totalQuestions)
      && n.totalAnswered == g.totalAnswered + Max(0, answered)
      && n.totalCorrect == g.totalCorrect + Max(0, correct)
      && n.totalWrong == g.totalWrong + Max(0, wrong)
      && n.lastPlayedAt == Some(now)
      && r.accuracy == (if answered > 0 then Max(0, correct) as real / answered as real else 0.0)
      && r.updatedUser == WithGame(users[idx], n)
      && newUsers == users[idx := r.updatedUser]
  {
    newUsers := users;
    var idx := FindIndexById(users, userId);
    if idx < 0 {
      return newUsers, None;
    }
    var user := users[idx];
    var game := GameOf(user);
    var safeAnswered := Max(0, answered);
    var safeCorrect := Max(0, correct);
    var safeWrong := Max(0, wrong);
    var safeTotal := Max(0, totalQuestions);
    var accuracy := if safeAnswered > 0 then safeCorrect as real / safeAnswered as real else 0.0;
    var prevLevel := game.level;
    var xpGain := CalcXpGain(answers, finishedBeforeTimeout);
    var nextXp := game.xp + xpGain;
    var nextLevel := CalcLevelFromXp(nextXp);
    var isPerfect := safeTotal > 0 && safeAnswered == safeTotal && safeCorrect == safeTotal && safeWrong == 0;
    var perfectTokenGain := if isPerfect then 1 else 0;
    var levelGained := Max(0, nextLevel - prevLevel);
    var levelUpTokenGain := levelGained * 5;
    var tokenGain := perfectTokenGain + levelUpTokenGain;
    var nextGame := game.(
      xp := nextXp,
      level := nextLevel,
      tokens := game.tokens + tokenGain,
      quizzesPlayed := game.quizzesPlayed + 1,
      totalQuestions := game.totalQuestions + safeTotal,
      totalAnswered := game.totalAnswered + safeAnswered,
      totalCorrect := game.totalCorrect + safeCorrect,
      totalWrong := game.totalWrong + safeWrong,
      lastPlayedAt := Some(now));
    var updatedUser := WithGame(user, nextGame);
    newUsers := newUsers[idx := updatedUser];
    result := Some(ApplyResult(updatedUser, xpGain, nextGame, tokenGain, perfectTokenGain,
                               levelUpTokenGain, levelGained, accuracy));
  }

  /**
   * What a quiz result can do to the statistics: XP never drops, the level
   * never drops below the level of the old XP and always fits the new XP,
   * tokens never drop and stay non-negative, and the stored record reads
   * back as the new statistics.
   */
  lemma ApplyResultMonotone(g: GameStats, xpGain: int, tokenGain: int)
    requires g.tokens >= 0 && xpGain >= 0 && tokenGain >= 0
    ensures var n := g.(xp := g.xp + xpGain, level := CalcLevelFromXp(g.xp + xpGain), tokens := g.tokens + tokenGain);
      && n.xp >= g.xp
      && CalcLevelFromXp(g.xp) <= n.level
      && IsLevelOf(n.level, n.xp)
      && n.tokens >= g.tokens >= 0
      && NormalizeGame(Some(ToPartial(n))) == n
  {
    LevelMonotone(g.xp, g.xp + xpGain);
  }

  /** The gain of a quiz is never negative, so applying it never lowers XP. */
  lemma XpGainNonNegative(m: map<string, AnswerRecord>, finishedBeforeTimeout: bool)
    ensures XpGainSpec(m, finishedBeforeTimeout) >= 0
  {
    XpGainBounds(m, finishedBeforeTimeout);
  }
}
