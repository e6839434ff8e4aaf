/**
 * The start-quiz form: the clamping of the requested number of questions
 * and of the time limit, and the rule that a quiz starts only once its
 * questions have arrived.
 */
module StartQuizPage {
  import opened Common
  import opened QuizSlice

  /**
   * A numeric form field after `Number(...)`: `None` stands for `NaN`
   * (text that is not a number).
   */
  type NumberField = Option<int>

  /** `x || fallback` for a numeric field: 0 and `NaN` are falsy. */
  function OrDefault(x: NumberField, fallback: int): int {
    if x.None? || x.value == 0 then fallback else x.value
  }

  /** `Math.min(hi, Math.max(lo, x || fallback))` */
  function ClampField(x: NumberField, lo: int, hi: int, fallback: int): (r: int)
    requires 0 < lo <= fallback <= hi
    ensures lo <= r <= hi
    ensures (x.None? || x.value == 0) ==> r == fallback
    ensures x.Some? && lo <= x.value <= hi ==> r == x.value
    ensures x.Some? && x.value > hi ==> r == hi
    ensures x.Some? && x.value != 0 && x.value < lo ==> r == lo
  {
    Min(hi, Max(lo, OrDefault(x, fallback)))
  }

  /** `amountSafe`: 1 to 50 questions, 10 when the field is empty or zero. */
  function AmountSafe(amount: NumberField): (n: int)
    ensures 1 <= n <= 50
    ensures (amount.None? || amount.value == 0) ==> n == 10
    ensures amount.Some? && 1 <= amount.value <= 50 ==> n == amount.value
  {
    ClampField(amount, 1, 50, 10)
  }

  /** `durationSafe`: 30 seconds to 30 minutes, 120 when the field is empty or zero. */
  function DurationSafe(durationSec: NumberField): (d: int)
    ensures 30 <= d <= 1800
    ensures (durationSec.None? || durationSec.value == 0) ==> d == 120
    ensures durationSec.Some? && 30 <= durationSec.value <= 1800 ==> d == durationSec.value
  {
    ClampField(durationSec, 30, 60 * 30, 120)
  }

  /** Clamping a clamped value changes nothing. */
  lemma ClampsIdempotent(amount: NumberField, durationSec: NumberField)
    ensures AmountSafe(Some(AmountSafe(amount))) == AmountSafe(amount)
    ensures DurationSafe(Some(DurationSafe(durationSec))) == DurationSafe(durationSec)
  {
  }

  /** The difficulty picker: "any" or one difficulty. */
  datatype DifficultyChoice = AnyDifficulty | Only(d: Difficulty)

  /** The request `start` sends: "any" sends no difficulty and category 0 sends no category. */
  function StartRequest(amount: NumberField, t: QuizType, difficulty: DifficultyChoice, category: int): FetchArgs {
    FetchArgs(
      Some(AmountSafe(amount)),
      Some(t),
      if difficulty.AnyDifficulty? then None else Some(difficulty.d),
      if category == 0 then None else Some(category))
  }

  /**
   * The query of that request asks for the clamped number of questions of
   * the chosen type, names a difficulty exactly when one is picked and a
   * category exactly when it is not 0.
   */
  lemma StartRequestQuery(amount: NumberField, t: QuizType, difficulty: DifficultyChoice, category: int)
    ensures var q := BuildQuery(StartRequest(amount, t, difficulty, category));
      && q[0] == ("amount", IntToString(AmountSafe(amount)))
      && q[1] == ("type", QuizTypeName(t))
      && (HasParam(q, "difficulty") <==> difficulty.Only?)
      && (HasParam(q, "category") <==> category != 0)
      && (forall i :: 0 <= i < |q| && q[i].0 == "category" ==> q[i].1 == IntToString(category))
  {
  }

  /** How the awaited fetch settled: its payload of normalised questions, or a failure. */
  datatype FetchOutcome = Fulfilled(payload: seq<Question>) | Rejected

  /**
   * `start`: the fetch goes through pending to its outcome; the quiz is
   * started with the clamped time limit only when questions arrived, and
   * otherwise the failure is reported (`alerted`).
   */
  method Start(quiz: QuizSession, amount: NumberField, durationSec: NumberField, t: QuizType,
               difficulty: DifficultyChoice, category: int, outcome: FetchOutcome, now: int)
    returns (request: FetchArgs, started: bool, alerted: bool)
    requires quiz.Valid()
    requires outcome.Fulfilled? ==> DistinctIds(outcome.payload)
    modifies quiz
    ensures request == StartRequest(amount, t, difficulty, category)
    ensures started <==> outcome.Fulfilled? && |outcome.payload| > 0
    ensures alerted <==> !started
    ensures started ==>
      && quiz.status == InProgress && quiz.questions == outcome.payload
      && quiz.totalCount == |outcome.payload| && quiz.currentIndex == 0 && quiz.answers == map[]
      && quiz.durationSec == DurationSafe(durationSec) && quiz.startedAt == Some(now)
      && quiz.InSession()
    ensures outcome.Fulfilled? && !started ==> quiz.status == Idle && quiz.questions == [] && quiz.Valid()
    ensures outcome.Rejected? ==> quiz.status == Idle && quiz.questions == old(quiz.questions) && quiz.Valid()
  {
    request := StartRequest(amount, t, difficulty, category);
    quiz.FetchPending();
    started, alerted := false, false;
    match outcome {
      case Fulfilled(payload) =>
        quiz.FetchFulfilled(payload);
        if |payload| > 0 {
          quiz.StartQuiz(Some(DurationSafe(durationSec)), now);
          started := true;
        } else {
          alerted := true;
        }
      case Rejected =>
        quiz.FetchRejected();
        alerted := true;
    }
  }
}
