/**
 * The quiz page: the pause-aware countdown and its `mm:ss` display, the
 * hint (remove one wrong option for a token) with the reasons it is
 * unavailable, the pick / submit / continue handlers of the two answer
 * modes, and the effects that start and finish the session.
 */
module QuizPage {
  import opened Common
  import opened Text
  import opened UserTypes
  import opened QuizSlice
  import opened UserGame
  import opened WebStorage

  /* ---------- the countdown ---------- */

  /**
   * `remainingSec`: the duration minus the whole seconds elapsed outside
   * pauses (the finished ones and the one in course), never below 0; the
   * full duration before the clock starts.
   */
  function RemainingSec(startedAt: Option<int>, durationSec: int, pausedMsTotal: int, pausedAt: Option<int>, now: int): (r: int)
    ensures !IsSet(startedAt) ==> r == durationSec
    ensures IsSet(startedAt) ==> r >= 0
    ensures IsSet(startedAt) ==>
      var elapsedMs := now - startedAt.value - (pausedMsTotal + (if IsSet(pausedAt) then now - pausedAt.value else 0));
      r == Max(0, durationSec - elapsedMs / 1000)
  {
    if !IsSet(startedAt) then durationSec
    else
      var pausedSoFar := pausedMsTotal + (if IsSet(pausedAt) then now - pausedAt.value else 0);
      var elapsed := (now - startedAt.value - pausedSoFar) / 1000;
      Max(0, durationSec - elapsed)
  }

  /** While a pause is in course the countdown stands still. */
  lemma PausedCountdownFrozen(startedAt: Option<int>, durationSec: int, pausedMsTotal: int, pausedAt: Option<int>, t1: int, t2: int)
    requires IsSet(pausedAt)
    ensures RemainingSec(startedAt, durationSec, pausedMsTotal, pausedAt, t1)
         == RemainingSec(startedAt, durationSec, pausedMsTotal, pausedAt, t2)
  {
    if IsSet(startedAt) {
      assert t1 - startedAt.value - (pausedMsTotal + (t1 - pausedAt.value))
          == t2 - startedAt.value - (pausedMsTotal + (t2 - pausedAt.value));
    }
  }

  lemma DivMonotone(a: int, b: int, d: int)
    requires a <= b && d > 0
    ensures a / d <= b / d
  {
    DivBounds(a, d);
    DivBounds(b, d);
    if a / d > b / d {
      MulMonotone(d, b / d + 1, a / d);
    }
  }

  /** Out of a pause the countdown never goes up as time passes. */
  lemma CountdownNonIncreasing(startedAt: Option<int>, durationSec: int, pausedMsTotal: int, t1: int, t2: int)
    requires t1 <= t2
    ensures RemainingSec(startedAt, durationSec, pausedMsTotal, None, t2)
         <= RemainingSec(startedAt, durationSec, pausedMsTotal, None, t1)
  {
    if IsSet(startedAt) {
      DivMonotone(t1 - startedAt.value - pausedMsTotal, t2 - startedAt.value - pausedMsTotal, 1000);
    }
  }

  /** Once the clock is past its start and the pauses, the countdown is at most the duration. */
  lemma CountdownAtMostDuration(startedAt: Option<int>, durationSec: int, pausedMsTotal: int, pausedAt: Option<int>, now: int)
    requires IsSet(startedAt) && durationSec >= 0
    requires now - startedAt.value - (pausedMsTotal + (if IsSet(pausedAt) then now - pausedAt.value else 0)) >= 0
    ensures RemainingSec(startedAt, durationSec, pausedMsTotal, pausedAt, now) <= durationSec
  {
  }

  /**
   * A two-minute session paused once for ten seconds and then resumed reads
   * 0 after two minutes of unpaused time, whatever the start time.
   */
  lemma TwoMinutesWithOnePause(start: int, pauseAt: int)
    requires start != 0 && pauseAt != 0 && start <= pauseAt
    ensures var total := 0 + ((pauseAt + 10000) - pauseAt);
      RemainingSec(Some(start), 120, total, None, start + 10000 + 120000) == 0
  {
  }

  /** `String(n).padStart(2, "0")` for a natural number. */
  function Pad2(n: nat): (s: string)
    ensures |s| >= 2 && IsDigits(s) && DigitsValue(s) == n
    ensures n < 10 ==> s == "0" + NatToString(n)
    ensures n >= 10 ==> s == NatToString(n)
  {
    var d := NatToString(n);
    if |d| < 2 then
      var s := "0" + d;
      assert s[..1] == "0";
      s
    else d
  }

  /** Two values shown alike are the same value. */
  lemma Pad2Injective(a: nat, b: nat)
    requires Pad2(a) == Pad2(b)
    ensures a == b
  {
  }

  /** The `mm` and `ss` of the display: whole minutes and the seconds left over. */
  function Clock(remaining: nat): (c: (nat, nat))
    ensures c.0 * 60 + c.1 == remaining && c.1 < 60
  {
    (remaining / 60, remaining % 60)
  }

  /* ---------- the hint ---------- */

  /** The question on screen: none before the questions load or past the end. */
  function CurrentQuestion(questions: seq<Question>, currentIndex: int): (q: Option<Question>)
    ensures q.Some? <==> 0 <= currentIndex < |questions|
    ensures q.Some? ==> q.value == questions[currentIndex]
  {
    if |questions| > 0 && 0 <= currentIndex < |questions| then Some(questions[currentIndex]) else None
  }

  /** The correct answer, when the question has a non-empty one. */
  function CorrectAnswerOf(q: Option<Question>): (c: Option<string>)
    ensures c.Some? <==> q.Some? && q.value.correctAnswer != ""
    ensures c.Some? ==> c.value == q.value.correctAnswer
  {
    if q.Some? && q.value.correctAnswer != "" then Some(q.value.correctAnswer) else None
  }

  /** The options still on offer that are not `correct`, in their order. */
  function Candidates(answers: seq<string>, correct: Option<string>, disabled: set<string>): (r: seq<string>)
    ensures |r| <= |answers|
    ensures forall a :: a in r <==> a in answers && Some(a) != correct && a !in disabled
    ensures forall a :: multiset(r)[a] == if Some(a) != correct && a !in disabled then multiset(answers)[a] else 0
    decreases |answers|
  {
    if answers == [] then []
    else
      var rest := Candidates(answers[1..], correct, disabled);
      assert answers == [answers[0]] + answers[1..];
      assert forall a :: a in answers <==> a == answers[0] || a in answers[1..];
      assert multiset(answers) == multiset{answers[0]} + multiset(answers[1..]);
      if Some(answers[0]) != correct && answers[0] !in disabled then [answers[0]] + rest else rest
  }

  /** `wrongOptionsLeft`: how many wrong options are still enabled; 0 without a correct answer. */
  function WrongOptionsLeft(answers: seq<string>, correct: Option<string>, disabled: set<string>): (n: nat)
    ensures correct.None? ==> n == 0
    ensures correct.Some? ==> n == |Candidates(answers, correct, disabled)|
    ensures n > 0 ==> exists a :: a in answers && Some(a) != correct && a !in disabled
  {
    if correct.None? then 0
    else
      var c := Candidates(answers, correct, disabled);
      assert |c| > 0 ==> c[0] in c;
      |c|
  }

  /**
   * Disabling an option that is still a candidate lowers the count by the
   * number of times it is offered; disabling any other option changes nothing.
   */
  lemma DisablingLowersCount(answers: seq<string>, correct: Option<string>, disabled: set<string>, pick: string)
    requires correct.Some?
    ensures WrongOptionsLeft(answers, correct, disabled + {pick}) ==
      WrongOptionsLeft(answers, correct, disabled) - (if Some(pick) != correct && pick !in disabled then multiset(answers)[pick] else 0)
  {
    var before := multiset(Candidates(answers, correct, disabled));
    var after := multiset(Candidates(answers, correct, disabled + {pick}));
    var k := if Some(pick) != correct && pick !in disabled then multiset(answers)[pick] else 0;
    var removed := multiset{}[pick := k];
    assert before == after + removed;
    assert |removed| == k;
  }

  /** Why the hint is unavailable, in the order the page checks. */
  datatype HintBlock =
    | AlreadyRevealed
    | QuestionNotReady
    | CorrectAnswerMissing
    | UserIdMissing
    | NoTokens
    | NoWrongOptionsLeft

  /** The signed-in user's id without surrounding whitespace; empty when signed out. */
  function UserIdOf(user: Option<User>): (id: string)
    ensures user.None? ==> id == ""
    ensures user.Some? ==> id == Trim(user.value.id)
    ensures id == [] || (!IsSpace(id[0]) && !IsSpace(id[|id| - 1]))
  {
    if user.Some? then Trim(user.value.id) else ""
  }

  /** The signed-in user's tokens; 0 when signed out or with no game record or count. */
  function TokensOf(user: Option<User>): (t: int)
    ensures user.None? || user.value.game.None? || user.value.game.value.tokens.None? ==> t == 0
    ensures user.Some? && user.value.game.Some? && user.value.game.value.tokens.Some? ==>
      t == user.value.game.value.tokens.value
  {
    if user.Some? && user.value.game.Some? then user.value.game.value.tokens.GetOr(0) else 0
  }

  /** `hintDisabledReason`: the first check that fails, or `None` when a hint may be used. */
  function HintDisabledReason(revealed: bool, q: Option<Question>, correct: Option<string>,
                              userId: string, tokens: int, wrongLeft: int): (r: Option<HintBlock>)
    ensures r == None <==> !revealed && q.Some? && correct.Some? && userId != "" && tokens > 0 && wrongLeft > 0
    ensures r == Some(AlreadyRevealed) <==> revealed
    ensures r == Some(QuestionNotReady) <==> !revealed && q.None?
    ensures r == Some(CorrectAnswerMissing) <==> !revealed && q.Some? && correct.None?
    ensures r == Some(UserIdMissing) <==> !revealed && q.Some? && correct.Some? && userId == ""
    ensures r == Some(NoTokens) <==> !revealed && q.Some? && correct.Some? && userId != "" && tokens <= 0
    ensures r == Some(NoWrongOptionsLeft) <==>
      !revealed && q.Some? && correct.Some? && userId != "" && tokens > 0 && wrongLeft <= 0
  {
    if revealed then Some(AlreadyRevealed)
    else if q.None? then Some(QuestionNotReady)
    else if correct.None? then Some(CorrectAnswerMissing)
    else if userId == "" then Some(UserIdMissing)
    else if tokens <= 0 then Some(NoTokens)
    else if wrongLeft <= 0 then Some(NoWrongOptionsLeft)
    else None
  }

  /* ---------- the page's local state and handlers ---------- */

  /** The per-question state of the page. */
  class QuizScreen {
    var selected: Option<string>
    var revealed: bool
    var disabledAnswers: set<string>

    constructor ()
      ensures selected == None && !revealed && disabledAnswers == {}
    {
      selected, revealed, disabledAnswers := None, false, {};
    }

    /** `resetLocal`, also run whenever the question index changes. */
    method ResetLocal()
      modifies this
      ensures selected == None && !revealed && disabledAnswers == {}
    {
      selected, revealed, disabledAnswers := None, false, {};
    }

    /** The hint's block reason for the session and signed-in user as they are. */
    function Reason(quiz: QuizSession, user: Option<User>): Option<HintBlock>
      reads this, quiz
    {
      var q := CurrentQuestion(quiz.questions, quiz.currentIndex);
      var correct := CorrectAnswerOf(q);
      var answers := if q.Some? then q.value.answers else [];
      HintDisabledReason(revealed, q, correct, UserIdOf(user), TokensOf(user),
                         WrongOptionsLeft(answers, correct, disabledAnswers))
    }

    /**
     * `handleHint`: when no reason blocks it and the token is spent, disables
     * one enabled wrong option, chosen by the draw `random`, and clears the
     * selection if it was that option. A refused spend disables nothing.
     */
    method HandleHint(quiz: QuizSession, user: Option<User>, users: seq<User>, random: real)
      returns (newUsers: seq<User>, spent: Option<SpendResult>)
      requires 0.0 <= random < 1.0
      modifies this
      ensures old(Reason(quiz, user)).Some? ==> spent == None
      ensures old(Reason(quiz, user)).None? ==>
        var idx := FindIndexById(users, UserIdOf(user));
        (spent.Some? <==> 0 <= idx && GameOf(users[idx]).tokens >= 1)
      ensures spent == None ==> newUsers == users && disabledAnswers == old(disabledAnswers) && selected == old(selected)
      ensures spent.Some? ==>
        var q := CurrentQuestion(quiz.questions, quiz.currentIndex).value;
        exists pick ::
          && pick in q.answers && pick != q.correctAnswer && pick !in old(disabledAnswers)
          && disabledAnswers == old(disabledAnswers) + {pick}
          && selected == (if old(selected) == Some(pick) then None else old(selected))
      ensures spent.Some? ==>
        var idx := FindIndexById(users, UserIdOf(user));
        var g := GameOf(users[idx]);
        && 0 <= idx
        && spent.value.nextGame == g.(tokens := g.tokens - 1)
        && spent.value.updatedUser == WithGame(users[idx], spent.value.nextGame)
        && newUsers == users[idx := spent.value.updatedUser]
      ensures revealed == old(revealed)
    {
      newUsers := users;
      spent := None;
      if Reason(quiz, user).Some? {
        return;
      }
      var q := CurrentQuestion(quiz.questions, quiz.currentIndex);
      var correct := CorrectAnswerOf(q);
      var candidates := Candidates(q.value.answers, correct, disabledAnswers);
      assert WrongOptionsLeft(q.value.answers, correct, disabledAnswers) > 0;
      // the guard has just seen a wrong option left, so the page's
      // empty-candidates return after the spend cannot be reached
      assert |candidates| > 0;
      var result;
      newUsers, result := SpendUserTokens(users, UserIdOf(user), 1);
      if result.None? {
        return;
      }
      DisableOneOf(candidates, random);
      spent := result;
    }

    /**
     * Disables the candidate the draw `random` picks, clearing the selection
     * if it was that option.
     */
    method DisableOneOf(candidates: seq<string>, random: real)
      requires 0.0 <= random < 1.0 && |candidates| > 0
      modifies this`disabledAnswers, this`selected
      ensures exists pick ::
        && pick in candidates
        && disabledAnswers == old(disabledAnswers) + {pick}
        && selected == (if old(selected) == Some(pick) then None else old(selected))
    {
      var pick := candidates[RandomIndex(random, |candidates|)];
      assert pick in candidates;
      disabledAnswers := disabledAnswers + {pick};
      if selected == Some(pick) {
        selected := None;
      }
    }

    /** `goNextClean`: clears the local state, then asks the session for the next question. */
    method GoNextClean(quiz: QuizSession, now: int)
      requires quiz.Valid()
      modifies this, quiz
      ensures quiz.Valid() && (old(quiz.InSession()) ==> quiz.InSession())
      ensures selected == None && !revealed && disabledAnswers == {}
      ensures old(quiz.status) == InProgress && old(quiz.currentIndex) + 1 < |quiz.questions| ==>
                quiz.status == InProgress && quiz.currentIndex == old(quiz.currentIndex) + 1
      ensures old(quiz.status) == InProgress && old(quiz.currentIndex) + 1 >= |quiz.questions| ==>
                quiz.status == Finished && quiz.finishedAt == Some(now)
      ensures old(quiz.status) != InProgress ==>
                quiz.status == old(quiz.status) && quiz.currentIndex == old(quiz.currentIndex)
      ensures !(old(quiz.status) == InProgress && old(quiz.currentIndex) + 1 >= |quiz.questions|) ==>
                quiz.finishedAt == old(quiz.finishedAt)
      ensures quiz.answers == old(quiz.answers) && quiz.questions == old(quiz.questions)
      ensures quiz.totalCount == old(quiz.totalCount)
      ensures quiz.pausedAt == old(quiz.pausedAt) && quiz.pausedMsTotal == old(quiz.pausedMsTotal)
      ensures quiz.startedAt == old(quiz.startedAt) && quiz.durationSec == old(quiz.durationSec)
    {
      ResetLocal();
      quiz.NextQuestion(now);
    }

    /**
     * `handlePick`: ignored without a question, after the reveal or on a
     * disabled option. In manual mode it only selects; in auto mode it also
     * reveals and records the answer without advancing, and the page then
     * calls `GoNextClean` after the configured delay.
     */
    method HandlePick(a: string, mode: string, quiz: QuizSession, now: int)
      requires quiz.Valid()
      modifies this, quiz
      ensures quiz.Valid() && (old(quiz.InSession()) ==> quiz.InSession())
      ensures quiz.currentIndex == old(quiz.currentIndex) && quiz.status == old(quiz.status)
      ensures quiz.questions == old(quiz.questions)
      ensures CurrentQuestion(old(quiz.questions), old(quiz.currentIndex)).None? || old(revealed) || a in old(disabledAnswers) ==>
                selected == old(selected) && revealed == old(revealed) && quiz.Snapshot() == old(quiz.Snapshot())
      ensures CurrentQuestion(old(quiz.questions), old(quiz.currentIndex)).Some? && !old(revealed) && a !in old(disabledAnswers) ==>
                && selected == Some(a)
                && (mode == "manual" ==> !revealed && quiz.Snapshot() == old(quiz.Snapshot()))
                && (mode != "manual" ==>
                      revealed && quiz.answers == RecordAnswer(old(quiz.answers), old(quiz.questions)[old(quiz.currentIndex)], a))
      ensures disabledAnswers == old(disabledAnswers)
      ensures quiz.Timing() == old(quiz.Timing()) && quiz.totalCount == old(quiz.totalCount)
    {
      if CurrentQuestion(quiz.questions, quiz.currentIndex).None? || revealed || a in disabledAnswers {
        return;
      }
      if mode == "manual" {
        selected := Some(a);
        return;
      }
      selected := Some(a);
      revealed := true;
      quiz.AnswerCurrent(a, Some(false), now);
    }

    /**
     * `handleSubmit` (manual mode): with a selection and before the reveal,
     * reveals, records the selection without advancing, and pauses the clock.
     */
    method HandleSubmit(mode: string, quiz: QuizSession, now: int)
      requires quiz.Valid()
      modifies this, quiz
      ensures quiz.Valid() && (old(quiz.InSession()) ==> quiz.InSession())
      ensures quiz.currentIndex == old(quiz.currentIndex) && quiz.status == old(quiz.status)
      ensures mode != "manual" || !Truthy(old(selected)) || old(revealed) ==>
                revealed == old(revealed) && quiz.Snapshot() == old(quiz.Snapshot())
      ensures mode == "manual" && Truthy(old(selected)) && !old(revealed) ==>
                && revealed
                && (old(quiz.currentIndex) < |old(quiz.questions)| ==>
                      quiz.answers == RecordAnswer(old(quiz.answers), old(quiz.questions)[old(quiz.currentIndex)], old(selected).value))
                && (old(quiz.currentIndex) >= |old(quiz.questions)| ==> quiz.answers == old(quiz.answers))
                && quiz.pausedAt == (if quiz.status == InProgress && !IsSet(old(quiz.pausedAt)) then Some(now) else old(quiz.pausedAt))
      ensures selected == old(selected) && disabledAnswers == old(disabledAnswers)
      ensures quiz.Timing() == old(quiz.Timing()).(pausedAt := quiz.pausedAt)
      ensures quiz.questions == old(quiz.questions) && quiz.totalCount == old(quiz.totalCount)
    {
      if mode != "manual" {
        return;
      }
      if !Truthy(selected) || revealed {
        return;
      }
      revealed := true;
      quiz.AnswerCurrent(selected.value, Some(false), now);
      quiz.PauseTimer(now);
    }

    /** `handleContinue` (manual mode): after the reveal, resumes the clock and moves on. */
    method HandleContinue(mode: string, quiz: QuizSession, now: int)
      requires quiz.Valid()
      modifies this, quiz
      ensures quiz.Valid() && (old(quiz.InSession()) ==> quiz.InSession())
      ensures mode != "manual" || !old(revealed) ==>
                selected == old(selected) && revealed == old(revealed) && disabledAnswers == old(disabledAnswers)
                && quiz.Snapshot() == old(quiz.Snapshot())
      ensures mode == "manual" && old(revealed) ==>
                && selected == None && !revealed && disabledAnswers == {}
                && (old(quiz.status) == InProgress ==> !IsSet(quiz.pausedAt))
                && (old(quiz.status) == InProgress && IsSet(old(quiz.pausedAt)) ==>
                      quiz.pausedMsTotal == old(quiz.pausedMsTotal) + (now - old(quiz.pausedAt).value))
                && (old(quiz.status) == InProgress && old(quiz.currentIndex) + 1 < |quiz.questions| ==>
                      quiz.status == InProgress && quiz.currentIndex == old(quiz.currentIndex) + 1)
                && (old(quiz.status) == InProgress && old(quiz.currentIndex) + 1 >= |quiz.questions| ==>
                      quiz.status == Finished && quiz.finishedAt == Some(now))
                && (old(quiz.status) != InProgress ==>
                      quiz.status == old(quiz.status) && quiz.currentIndex == old(quiz.currentIndex)
                      && quiz.pausedAt == old(quiz.pausedAt))
                && (!(old(quiz.status) == InProgress && IsSet(old(quiz.pausedAt))) ==>
                      quiz.pausedMsTotal == old(quiz.pausedMsTotal))
                && (!(old(quiz.status) == InProgress && old(quiz.currentIndex) + 1 >= |quiz.questions|) ==>
                      quiz.finishedAt == old(quiz.finishedAt))
      ensures quiz.answers == old(quiz.answers) && quiz.questions == old(quiz.questions)
      ensures quiz.startedAt == old(quiz.startedAt) && quiz.durationSec == old(quiz.durationSec)
      ensures quiz.totalCount == old(quiz.totalCount)
    {
      if mode != "manual" {
        return;
      }
      if !revealed {
        return;
      }
      quiz.ResumeTimer(now);
      GoNextClean(quiz, now);
    }
  }

  /* ---------- the session effects ---------- */

  /** What the page's effects dispatch for a given session state. */
  datatype Effect = FetchDefault | StartDefault | FinishNow | Nothing

  /**
   * The effects: an idle session with no questions fetches ten multiple-choice
   * questions, an idle one with questions starts a two-minute run, and a run
   * in progress whose countdown reached 0 is finished.
   */
  function DueEffect(status: Status, questionCount: nat, remaining: int): (e: Effect)
    ensures e == FetchDefault <==> status == Idle && questionCount == 0
    ensures e == StartDefault <==> status == Idle && questionCount > 0
    ensures e == FinishNow <==> status == InProgress && remaining <= 0
  {
    if status == Idle && questionCount == 0 then FetchDefault
    else if status == Idle then StartDefault
    else if status == InProgress && remaining <= 0 then FinishNow
    else Nothing
  }

  /** The fetch the page asks for: ten multiple-choice questions of any difficulty and category. */
  function DefaultFetch(): FetchArgs {
    FetchArgs(Some(10), Some(Multiple), None, None)
  }

  /** Runs the due effect; for the fetch only its synchronous pending step, the request itself is left to the caller. */
  method RunEffects(quiz: QuizSession, now: int)
    requires quiz.Valid()
    modifies quiz
    ensures quiz.Valid()
    ensures var e := DueEffect(old(quiz.status), |old(quiz.questions)|,
                               RemainingSec(old(quiz.startedAt), old(quiz.durationSec), old(quiz.pausedMsTotal), old(quiz.pausedAt), now));
      && (e == StartDefault ==>
            && quiz.status == InProgress && quiz.currentIndex == 0 && quiz.answers == map[]
            && quiz.questions == old(quiz.questions) && quiz.totalCount == |quiz.questions|
            && quiz.Timing() == Timer(Some(now), 120, 0, None, None) && quiz.InSession())
      && (e == FinishNow ==>
            quiz.Snapshot() == old(quiz.Snapshot()).(status := Finished, timer := old(quiz.Timing()).(finishedAt := Some(now))))
      && (e == FetchDefault ==> quiz.Snapshot() == old(quiz.Snapshot()).(status := Loading))
      && (e == Nothing ==> quiz.Snapshot() == old(quiz.Snapshot()))
  {
    var remaining := RemainingSec(quiz.startedAt, quiz.durationSec, quiz.pausedMsTotal, quiz.pausedAt, now);
    var e := DueEffect(quiz.status, |quiz.questions|, remaining);
    if e == StartDefault {
      quiz.StartQuiz(Some(120), now);
    } else if e == FinishNow {
      quiz.FinishQuiz(now);
    } else if e == FetchDefault {
      quiz.FetchPending();
    }
  }
}
