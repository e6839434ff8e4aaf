/**
 * The result page: the star rating and wording derived from a finished
 * run's counts, and the effect that applies the run to the logged-in user
 * exactly once, remembering the applied reward in session storage.
 */
module QuizResultPage {
  import opened Common
  import opened Text
  import opened UserTypes
  import opened QuizSlice
  import opened UserGame
  import opened WebStorage

  /** `Math.max(0, Math.min(1, n))` */
  function Clamp01(n: real): (c: real)
    ensures 0.0 <= c <= 1.0
    ensures 0.0 <= n <= 1.0 ==> c == n
    ensures n < 0.0 ==> c == 0.0
    ensures n > 1.0 ==> c == 1.0
  {
    if n < 0.0 then 0.0 else if n > 1.0 then 1.0 else n
  }

  /**
   * `getStarsFromAccuracy`: five stars for a perfect accuracy, then one star
   * less below each of 80%, 60% and 40%, one star for anything above zero.
   */
  function Stars(accuracy: real): (s: int)
    ensures 0 <= s <= 5
    ensures s == 5 <==> accuracy >= 1.0
    ensures s >= 4 <==> accuracy >= 0.8
    ensures s >= 3 <==> accuracy >= 0.6
    ensures s >= 2 <==> accuracy >= 0.4
    ensures s >= 1 <==> accuracy > 0.0
  {
    if accuracy >= 1.0 then 5
    else if accuracy >= 0.8 then 4
    else if accuracy >= 0.6 then 3
    else if accuracy >= 0.4 then 2
    else if accuracy > 0.0 then 1
    else 0
  }

  /** A better accuracy never earns fewer stars. */
  lemma StarsMonotone(a: real, b: real)
    requires a <= b
    ensures Stars(a) <= Stars(b)
  {
  }

  /** `formatPct`: the clamped fraction as a whole percentage, rounded half up like `Math.round`. */
  function FormatPct(n: real): (p: int)
    ensures 0 <= p <= 100
    ensures (p as real) - 0.5 <= Clamp01(n) * 100.0 < (p as real) + 0.5
  {
    (Clamp01(n) * 100.0 + 0.5).Floor
  }

  /** The page's accuracy: correct over answered, 0 when nothing was answered. */
  function Accuracy(answered: int, correct: int): (a: real)
    ensures answered <= 0 ==> a == 0.0
    ensures answered > 0 ==> a * (answered as real) == correct as real
  {
    if answered > 0 then correct as real / answered as real else 0.0
  }

  /** With 0 <= correct <= answered the accuracy is a fraction, and it is 1 exactly for a clean sheet. */
  lemma AccuracyRange(answered: int, correct: int)
    requires 0 <= correct <= answered
    ensures 0.0 <= Accuracy(answered, correct) <= 1.0
    ensures Accuracy(answered, correct) == 1.0 <==> answered > 0 && correct == answered
  {
    if answered > 0 {
      var a := Accuracy(answered, correct);
      assert a * (answered as real) == correct as real;
    }
  }

  /** Five stars are earned exactly when every answered question was right and something was answered. */
  lemma FiveStarsIffAllCorrect(answered: int, correct: int)
    requires 0 <= correct <= answered
    ensures Stars(Accuracy(answered, correct)) == 5 <==> answered > 0 && correct == answered
  {
    AccuracyRange(answered, correct);
  }

  /**
   * `finishedBeforeTimeout`: all three of the start, the finish and the
   * duration must be set (non-zero), and the whole seconds elapsed must be
   * fewer than the duration.
   */
  function FinishedBeforeTimeout(startedAt: Option<int>, finishedAt: Option<int>, durationSec: int): (b: bool)
    ensures b <==> IsSet(startedAt) && IsSet(finishedAt) && durationSec != 0
                   && finishedAt.value - startedAt.value < 1000 * durationSec
  {
    var s := startedAt.GetOr(0);
    var f := finishedAt.GetOr(0);
    if s == 0 || f == 0 || durationSec == 0 then false
    else
      DivBounds(f - s, 1000);
      (f - s) / 1000 < durationSec
  }

  /** `isPerfect`, on the counts as the page reads them. */
  predicate IsPerfect(total: int, answered: int, correct: int, wrong: int) {
    total > 0 && answered == total && correct == total && wrong == 0
  }

  /**
   * The page's perfect run agrees with the one the reward rules use on the
   * clamped counts, for counts that are not negative.
   */
  lemma PerfectAgreesWithReward(total: int, answered: int, correct: int, wrong: int)
    requires total >= 0 && answered >= 0 && correct >= 0 && wrong >= 0
    ensures IsPerfect(total, answered, correct, wrong)
        <==> PerfectRun(Max(0, total), Max(0, answered), Max(0, correct), Max(0, wrong))
  {
  }

  /** A perfect run shows five stars. */
  lemma PerfectShowsFiveStars(total: int, answered: int, correct: int, wrong: int)
    requires IsPerfect(total, answered, correct, wrong)
    ensures Stars(Accuracy(answered, correct)) == 5
  {
    FiveStarsIffAllCorrect(answered, correct);
  }

  /** `titleText` */
  function TitleText(stars: int): (t: string)
    ensures t == "Perfect Run!" <==> stars == 5
    ensures t == "Try Again!" <==> !(1 <= stars <= 5)
  {
    if stars == 5 then "Perfect Run!"
    else if stars == 4 then "Great Job!"
    else if stars == 3 then "Nice Work!"
    else if stars == 2 then "Keep Going!"
    else if stars == 1 then "Good Start!"
    else "Try Again!"
  }

  /** `subtitleText` */
  function SubtitleText(stars: int): (t: string)
    ensures t == "You answered everything correctly. Massive W." <==> stars == 5
    ensures t == "No answers recorded. Try again and submit answers." <==> !(1 <= stars <= 5)
    ensures |t| > 30
  {
    if stars == 5 then "You answered everything correctly. Massive W."
    else if stars == 4 then "Strong accuracy — you're close to perfect."
    else if stars == 3 then "Solid result. A bit more focus and you’ll level faster."
    else if stars == 2 then "You’re getting there. Improve accuracy for bonus XP."
    else if stars == 1 then "You’ve started — keep practicing."
    else "No answers recorded. Try again and submit answers."
  }

  /** Each star count from 0 to 5 has its own title. */
  lemma TitlesDistinct(a: int, b: int)
    requires 0 <= a <= 5 && 0 <= b <= 5 && a != b
    ensures TitleText(a) != TitleText(b)
  {
    assert TitleText(a)[0] != TitleText(b)[0] || TitleText(a)[1] != TitleText(b)[1];
  }

  /* ---------- applying the result once ---------- */

  /** `nextGame` as the payload keeps it. */
  datatype GameSummary = GameSummary(level: int, xp: int, tokens: int)

  /** `AppliedRewardPayload`: the numbers shown for an applied run. */
  datatype RewardPayload = RewardPayload(
    xpGain: int,
    tokenGain: int,
    perfectTokenGain: int,
    levelUpTokenGain: int,
    levelGained: int,
    accuracy: real,
    nextGame: Option<GameSummary>)

  function PayloadOf(r: ApplyResult): RewardPayload {
    RewardPayload(r.xpGain, r.tokenGain, r.perfectTokenGain, r.levelUpTokenGain, r.levelGained,
                  r.accuracy, Some(GameSummary(r.nextGame.level, r.nextGame.xp, r.nextGame.tokens)))
  }

  /** The logged-in id as the page reads it: local storage first, then session storage, trimmed. */
  function LoggedInUserId(local: Option<string>, session: Option<string>): (id: string)
    ensures Truthy(local) ==> id == Trim(local.value)
    ensures !Truthy(local) && Truthy(session) ==> id == Trim(session.value)
    ensures !Truthy(local) && !Truthy(session) ==> id == ""
  {
    if Truthy(local) then Trim(local.value)
    else if Truthy(session) then Trim(session.value)
    else ""
  }

  /** The session key that marks a run, told apart by its start time, as applied. */
  function MarkerKey(startedAt: int): (k: string)
    ensures |k| > |"quiz_result_applied_"| && k[..|"quiz_result_applied_"|] == "quiz_result_applied_"
    ensures k[|"quiz_result_applied_"|..] == IntToString(startedAt)
  {
    var k := "quiz_result_applied_" + IntToString(startedAt);
    assert k[|"quiz_result_applied_"|..] == IntToString(startedAt);
    k
  }

  /**
   * Two runs with different start times get different markers and
   * different payload keys, and no marker is ever some run's payload key.
   */
  lemma KeysTellRunsApart(a: int, b: int)
    ensures MarkerKey(a) == MarkerKey(b) ==> a == b
    ensures PayloadKey(a) == PayloadKey(b) ==> a == b
    ensures MarkerKey(a) != PayloadKey(b)
  {
    var p := "quiz_result_applied_";
    if MarkerKey(a) == MarkerKey(b) {
      IntToStringInjective(a, b);
    }
    if PayloadKey(a) == PayloadKey(b) {
      assert |MarkerKey(a)| == |MarkerKey(b)|;
      assert MarkerKey(a) == PayloadKey(a)[..|MarkerKey(a)|] == MarkerKey(b);
      IntToStringInjective(a, b);
    }
    var m, k := MarkerKey(a), PayloadKey(b);
    var last := m[|m| - 1];
    assert last == IntToString(a)[|IntToString(a)| - 1];
    assert '0' <= last <= '9' by {
      if a < 0 {
        assert last == IntToString(a)[1..][|IntToString(a)| - 2];
      }
    }
    assert k[|k| - 1] == 'd';
  }

  /** The session key that holds the reward of an applied run; never the marker itself. */
  function PayloadKey(startedAt: int): (k: string)
    ensures k != MarkerKey(startedAt)
    ensures |k| > |MarkerKey(startedAt)| && k[..|MarkerKey(startedAt)|] == MarkerKey(startedAt)
    ensures k[|MarkerKey(startedAt)|..] == "_payload"
  {
    var k := MarkerKey(startedAt) + "_payload";
    assert |k| != |MarkerKey(startedAt)|;
    assert k[|MarkerKey(startedAt)|..] == "_payload";
    k
  }

  /**
   * The reward of a run applied to a user whose statistics were `g`: the
   * difficulty-weighted XP, five tokens per level gained, one for a perfect
   * run, the new level, XP and tokens, and the share of answers that were
   * correct.
   */
  ghost predicate RewardFor(r: RewardPayload, g: GameStats, answers: map<string, AnswerRecord>, fbt: bool,
                            total: int, answered: int, correct: int, wrong: int)
  {
    && r.xpGain == XpGainSpec(answers, fbt)
    && r.levelGained == Max(0, CalcLevelFromXp(g.xp + r.xpGain) - g.level)
    && r.levelUpTokenGain == 5 * r.levelGained
    && r.perfectTokenGain == (if PerfectRun(Max(0, total), Max(0, answered), Max(0, correct), Max(0, wrong)) then 1 else 0)
    && r.tokenGain == r.perfectTokenGain + r.levelUpTokenGain
    && r.nextGame == Some(GameSummary(CalcLevelFromXp(g.xp + r.xpGain), g.xp + r.xpGain, g.tokens + r.tokenGain))
    && r.accuracy == (if answered > 0 then Max(0, correct) as real / answered as real else 0.0)
  }

  /** Only the user at `idx` changed, only in its game, and that game reads back as `next`. */
  ghost predicate OnlyGameOf(users: seq<User>, newUsers: seq<User>, idx: int, next: GameSummary) {
    && 0 <= idx < |users| == |newUsers|
    && (forall k :: 0 <= k < |users| && k != idx ==> newUsers[k] == users[k])
    && newUsers[idx] == users[idx].(game := newUsers[idx].game)
    && var n := GameOf(newUsers[idx]);
       GameSummary(n.level, n.xp, n.tokens) == next
  }

  /**
   * `applyQuizResultToUser` as the page calls it, with the payload it keeps:
   * `None` when the user is not in the list, which is then unchanged.
   */
  method ApplyReward(users: seq<User>, userId: string, total: int, answered: int, correct: int, wrong: int,
                     fbt: bool, answers: map<string, AnswerRecord>, now: int)
    returns (newUsers: seq<User>, payload: Option<RewardPayload>)
    ensures payload.None? <==> FindIndexById(users, userId) < 0
    ensures payload.None? ==> newUsers == users
    ensures payload.Some? ==>
      var idx := FindIndexById(users, userId);
      && payload.value.nextGame.Some?
      && RewardFor(payload.value, GameOf(users[idx]), answers, fbt, total, answered, correct, wrong)
      && OnlyGameOf(users, newUsers, idx, payload.value.nextGame.value)
  {
    var res;
    newUsers, res := ApplyQuizResultToUser(users, userId, total, answered, correct, wrong, fbt, answers, now);
    if res.None? {
      return newUsers, None;
    }
    NormalizeRoundTrip(res.value.nextGame);
    payload := Some(PayloadOf(res.value));
  }

  /** The result screen's own state: the id read at mount, the applied flag and the reward shown. */
  class ResultScreen {
    const userId: string
    var didApply: bool
    var reward: Option<RewardPayload>

    constructor (local: Option<string>, session: Option<string>)
      ensures userId == LoggedInUserId(local, session)
      ensures !didApply && reward.None?
    {
      userId := LoggedInUserId(local, session);
      didApply := false;
      reward := None;
    }

    /** The effect returns at once: no user, no started run, or already applied on this screen. */
    predicate Skips(startedAt: Option<int>)
      reads this
    {
      userId == "" || !IsSet(startedAt) || didApply
    }

    /** Session storage already holds both the marker and the payload of the run. */
    predicate Cached(session: Store, startedAt: int)
      reads session
    {
      Truthy(session.GetItem(MarkerKey(startedAt))) && Truthy(session.GetItem(PayloadKey(startedAt)))
    }

    /**
     * The apply-once effect. `stringify` and `parse` stand for the JSON
     * encoding of the payload (`parse` gives `None` where `JSON.parse`
     * throws); `users` is the stored users list and `now` the clock.
     */
    method ApplyOnce(quiz: QuizSession, session: Store, users: seq<User>, now: int,
                     stringify: RewardPayload -> string, parse: string -> Option<RewardPayload>)
      returns (newUsers: seq<User>)
      modifies this, session
      ensures old(Skips(quiz.startedAt)) ==>
        newUsers == users && session.items == old(session.items)
        && didApply == old(didApply) && reward == old(reward)
      ensures !old(Skips(quiz.startedAt)) ==> didApply
      ensures !old(Skips(quiz.startedAt)) && old(Cached(session, quiz.startedAt.value)) ==>
        && newUsers == users && session.items == old(session.items)
        && var p := parse(session.items[PayloadKey(quiz.startedAt.value)]);
           reward == (if p.Some? then p else old(reward))
      ensures !old(Skips(quiz.startedAt)) && !old(Cached(session, quiz.startedAt.value))
              && FindIndexById(users, userId) < 0 ==>
        newUsers == users && session.items == old(session.items) && reward == old(reward)
      ensures !old(Skips(quiz.startedAt)) && !old(Cached(session, quiz.startedAt.value))
              && FindIndexById(users, userId) >= 0 ==>
        var idx := FindIndexById(users, userId);
        var start := quiz.startedAt.value;
        && reward.Some? && reward.value.nextGame.Some?
        && RewardFor(reward.value, GameOf(users[idx]), quiz.answers,
                     FinishedBeforeTimeout(quiz.startedAt, quiz.finishedAt, quiz.durationSec),
                     quiz.totalCount, quiz.answeredCount, quiz.correctCount, quiz.wrongCount)
        && OnlyGameOf(users, newUsers, idx, reward.value.nextGame.value)
        && session.items == old(session.items)[MarkerKey(start) := "1"][PayloadKey(start) := stringify(reward.value)]
    {
      newUsers := users;
      if Skips(quiz.startedAt) {
        return;
      }
      var key := MarkerKey(quiz.startedAt.value);
      var payloadKey := PayloadKey(quiz.startedAt.value);
      var cached := session.GetItem(payloadKey);
      if Truthy(session.GetItem(key)) && Truthy(cached) {
        var p := parse(cached.value);
        if p.Some? {
          reward := p;
        }
        didApply := true;
        return;
      }
      var fbt := FinishedBeforeTimeout(quiz.startedAt, quiz.finishedAt, quiz.durationSec);
      var applied;
      newUsers, applied := ApplyReward(users, userId, quiz.totalCount, quiz.answeredCount,
                                       quiz.correctCount, quiz.wrongCount, fbt, quiz.answers, now);
      didApply := true;
      if applied.None? {
        return;
      }
      var payload := applied.value;
      reward := Some(payload);
      session.SetItem(key, "1");
      session.SetItem(payloadKey, stringify(payload));
    }
  }

  /**
   * One visit to the result page: a fresh screen runs the apply-once effect.
   * Only what a later visit observes is stated: the users, the reward shown
   * and the session storage.
   */
  method Visit(quiz: QuizSession, session: Store, users: seq<User>, now: int,
               local: Option<string>, sessionId: Option<string>,
               stringify: RewardPayload -> string, parse: string -> Option<RewardPayload>)
    returns (newUsers: seq<User>, reward: Option<RewardPayload>)
    modifies session
    ensures var id := LoggedInUserId(local, sessionId);
      && (id == "" || !IsSet(quiz.startedAt) ==>
            newUsers == users && reward.None? && session.items == old(session.items))
      && (id != "" && IsSet(quiz.startedAt) ==>
            var start := quiz.startedAt.value;
            var cached := Truthy(old(session.GetItem(MarkerKey(start)))) && Truthy(old(session.GetItem(PayloadKey(start))));
            && (cached ==>
                  newUsers == users && session.items == old(session.items)
                  && reward == parse(session.items[PayloadKey(start)]))
            && (!cached && FindIndexById(users, id) < 0 ==>
                  newUsers == users && session.items == old(session.items) && reward.None?)
            && (!cached && FindIndexById(users, id) >= 0 ==>
                  reward.Some?
                  && session.items == old(session.items)[MarkerKey(start) := "1"][PayloadKey(start) := stringify(reward.value)]))
  {
    var screen := new ResultScreen(local, sessionId);
    newUsers := screen.ApplyOnce(quiz, session, users, now, stringify, parse);
    reward := screen.reward;
  }

  /**
   * Revisiting the result page of the same run (a new screen over the same
   * session storage) never applies the run a second time and shows the same
   * reward, provided the payload encoding reads back and is never empty.
   */
  method RevisitAppliesOnce(quiz: QuizSession, session: Store, users: seq<User>, now: int, later: int,
                            local: Option<string>, sessionId: Option<string>,
                            stringify: RewardPayload -> string, parse: string -> Option<RewardPayload>)
    returns (afterFirst: seq<User>, afterSecond: seq<User>,
             firstReward: Option<RewardPayload>, secondReward: Option<RewardPayload>)
    requires forall p :: parse(stringify(p)) == Some(p)
    requires forall p :: stringify(p) != ""
    modifies session
    ensures afterSecond == afterFirst
    ensures secondReward == firstReward
  {
    ghost var before := session.items;
    afterFirst, firstReward := Visit(quiz, session, users, now, local, sessionId, stringify, parse);
    if LoggedInUserId(local, sessionId) != "" && IsSet(quiz.startedAt) {
      var start := quiz.startedAt.value;
      KeysTellRunsApart(start, start);
      if session.items != before {
        assert session.items[MarkerKey(start)] == "1";
        assert session.items[PayloadKey(start)] == stringify(firstReward.value);
      }
    }
    afterSecond, secondReward := Visit(quiz, session, afterFirst, later, local, sessionId, stringify, parse);
  }
}
