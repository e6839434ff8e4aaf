/**
 * The quiz session engine: the question record the trivia provider's
 * answers are normalised into, the Fisher–Yates shuffle of the answer
 * options, the provider query, and the session state machine
 * (`idle | loading | in_progress | finished`) with its reducers.
 */
module QuizSlice {
  import opened Common

  datatype Status = Idle | Loading | InProgress | Finished

  datatype Difficulty = Easy | Medium | Hard

  datatype QuizType = Multiple | Boolean

  function DifficultyName(d: Difficulty): string {
    match d
    case Easy => "easy"
    case Medium => "medium"
    case Hard => "hard"
  }

  function QuizTypeName(t: QuizType): string {
    match t
    case Multiple => "multiple"
    case Boolean => "boolean"
  }

  /**
   * A normalised question. `difficulty` is `None` only for a question that
   * did not come from the normaliser; `answers` holds the shuffled options.
   */
  datatype Question = Question(
    id: string,
    question: string,
    category: string,
    difficulty: Option<string>,
    correctAnswer: string,
    incorrectAnswers: seq<string>,
    answers: seq<string>)

  /** The record kept per answered question, keyed by the question's id. */
  datatype AnswerRecord = AnswerRecord(selected: string, correct: bool, difficulty: string)

  /**
   * One entry of the provider's `results`, with its text fields already
   * HTML-decoded.
   */
  datatype RawQuestion = RawQuestion(
    question: string,
    category: string,
    difficulty: string,
    correctAnswer: string,
    incorrectAnswers: Option<seq<string>>)

  /** The arguments of the fetch thunk; absent ones take their defaults. */
  datatype FetchArgs = FetchArgs(
    amount: Option<int>,
    quizType: Option<QuizType>,
    difficulty: Option<Difficulty>,
    category: Option<int>)

  predicate DistinctIds(qs: seq<Question>) {
    forall i, j :: 0 <= i < j < |qs| ==> qs[i].id != qs[j].id
  }

  function IdsOf(qs: seq<Question>): set<string> {
    set i | 0 <= i < |qs| :: qs[i].id
  }

  /* ---------- Fisher–Yates shuffle ---------- */

  /** `Math.floor(r * n)` for a draw `0 <= r < 1` of `Math.random()`: an index in `[0, n)`. */
  function RandomIndex(r: real, n: int): (j: int)
    requires 0.0 <= r < 1.0 && n >= 1
    ensures 0 <= j < n
  {
    RandomIndexInRange(r, n);
    (r * n as real).Floor
  }

  lemma RandomIndexInRange(r: real, n: int)
    requires 0.0 <= r < 1.0 && n >= 1
    ensures 0 <= (r * n as real).Floor < n
  {
    var x := r * n as real;
    assert 0.0 <= x;
    assert x < n as real by {
      assert r * n as real < 1.0 * n as real;
    }
  }

  /** Exchanging two cells keeps the multiset of a sequence. */
  lemma SwapPermutes<T>(s: seq<T>, i: int, j: int)
    requires 0 <= i < |s| && 0 <= j < |s|
    ensures multiset(s[i := s[j]][j := s[i]]) == multiset(s)
  {
  }

  /**
   * Copies `items` and shuffles the copy in place from the last cell down,
   * swapping cell `i` with cell `Math.floor(random[i] * (i + 1))`.
   * `random[i]` is the draw of `Math.random()` made at step `i`.
   */
  method Shuffle(items: seq<string>, random: seq<real>) returns (shuffled: seq<string>)
    requires |random| == |items|
    requires forall k :: 0 <= k < |random| ==> 0.0 <= random[k] < 1.0
    ensures |shuffled| == |items|
    ensures multiset(shuffled) == multiset(items)
  {
    var a := new string[|items|](k requires 0 <= k < |items| => items[k]);
    assert a[..] == items;
    var i := a.Length - 1;
    while i > 0
      invariant i < a.Length
      invariant multiset(a[..]) == multiset(items)
    {
      var j := RandomIndex(random[i], i + 1);
      ghost var before := a[..];
      a[i], a[j] := a[j], a[i];
      assert a[..] == before[i := before[j]][j := before[i]];
      SwapPermutes(before, i, j);
      i := i - 1;
    }
    shuffled := a[..];
  }

  /* ---------- the provider query ---------- */

  /** The query parameters the fetch thunk sets, in order, as (name, value) pairs. */
  function BuildQuery(args: FetchArgs): (q: seq<(string, string)>)
    ensures |q| >= 2
    ensures q[0] == ("amount", IntToString(args.amount.GetOr(10)))
    ensures q[1] == ("type", QuizTypeName(args.quizType.GetOr(Multiple)))
    ensures HasParam(q, "difficulty") <==> args.difficulty.Some?
    ensures HasParam(q, "category") <==> args.category.Some? && args.category.value != 0
    ensures forall i :: 0 <= i < |q| && q[i].0 == "difficulty" ==> q[i].1 == DifficultyName(args.difficulty.value)
    ensures forall i :: 0 <= i < |q| && q[i].0 == "category" ==> q[i].1 == IntToString(args.category.value)
  {
    QueryOf(IntToString(args.amount.GetOr(10)), QuizTypeName(args.quizType.GetOr(Multiple)),
            if args.difficulty.Some? then Some(DifficultyName(args.difficulty.value)) else None,
            if args.category.Some? && args.category.value != 0 then Some(IntToString(args.category.value)) else None)
  }

  /** The parameter list from the texts of its values; an absent optional one is not set. */
  function QueryOf(amount: string, typeName: string, difficulty: Option<string>, category: Option<string>)
    : (q: seq<(string, string)>)
    ensures |q| >= 2 && q[0] == ("amount", amount) && q[1] == ("type", typeName)
    ensures HasParam(q, "difficulty") <==> difficulty.Some?
    ensures HasParam(q, "category") <==> category.Some?
    ensures forall i :: 0 <= i < |q| && q[i].0 == "difficulty" ==> q[i].1 == difficulty.value
    ensures forall i :: 0 <= i < |q| && q[i].0 == "category" ==> q[i].1 == category.value
  {
    var base := [("amount", amount), ("type", typeName)];
    var withDifficulty := if difficulty.Some? then base + [("difficulty", difficulty.value)] else base;
    var q := if category.Some? then withDifficulty + [("category", category.value)] else withDifficulty;
    assert q[0].0 == "amount" && q[1].0 == "type";
    assert difficulty.Some? ==> q[2].0 == "difficulty";
    assert category.Some? ==> q[|q| - 1].0 == "category";
    q
  }

  predicate HasParam(q: seq<(string, string)>, name: string) {
    exists i :: 0 <= i < |q| && q[i].0 == name
  }

  /* ---------- normalisation of the provider's results ---------- */

  /** The options a raw question offers before shuffling: the correct one first. */
  function OptionsOf(raw: RawQuestion): seq<string> {
    [raw.correctAnswer] + raw.incorrectAnswers.GetOr([])
  }

  /**
   * The mapping of the fetch thunk: one question per result (none when
   * `results` is missing), with the given generated ids and the options of
   * each in shuffled order.
   */
  method NormalizeQuestions(results: Option<seq<RawQuestion>>, ids: seq<string>, random: seq<seq<real>>)
    returns (qs: seq<Question>)
    requires |ids| == |results.GetOr([])| && |random| == |results.GetOr([])|
    requires forall i :: 0 <= i < |random| ==> |random[i]| == |OptionsOf(results.value[i])|
    requires forall i, k :: 0 <= i < |random| && 0 <= k < |random[i]| ==> 0.0 <= random[i][k] < 1.0
    ensures |qs| == |results.GetOr([])|
    ensures forall i :: 0 <= i < |qs| ==> NormalizedFrom(qs[i], results.value[i], ids[i])
  {
    var raws := results.GetOr([]);
    qs := [];
    for i := 0 to |raws|
      invariant |qs| == i
      invariant forall k :: 0 <= k < i ==> NormalizedFrom(qs[k], raws[k], ids[k])
    {
      var raw := raws[i];
      var correct := raw.correctAnswer;
      var incorrect := raw.incorrectAnswers.GetOr([]);
      var answers := Shuffle([correct] + incorrect, random[i]);
      qs := qs + [Question(ids[i], raw.question, raw.category, Some(raw.difficulty), correct, incorrect, answers)];
    }
  }

  /** `q` is what the normaliser makes of `raw` under the id `id`. */
  predicate NormalizedFrom(q: Question, raw: RawQuestion, id: string) {
    && q.id == id
    && q.question == raw.question
    && q.category == raw.category
    && q.difficulty == Some(raw.difficulty)
    && q.correctAnswer == raw.correctAnswer
    && q.incorrectAnswers == raw.incorrectAnswers.GetOr([])
    && multiset(q.answers) == multiset(OptionsOf(raw))
  }

  /** The correct answer is always among a normalised question's options. */
  lemma CorrectAnswerOffered(q: Question, raw: RawQuestion, id: string)
    requires NormalizedFrom(q, raw, id)
    ensures q.correctAnswer in q.answers
    ensures |q.answers| == 1 + |q.incorrectAnswers|
  {
    assert q.correctAnswer in multiset(OptionsOf(raw));
    assert |multiset(q.answers)| == |multiset(OptionsOf(raw))|;
  }

  /* ---------- the session state machine ---------- */

  function CorrectKeys(answers: map<string, AnswerRecord>): set<string> {
    set k | k in answers && answers[k].correct
  }

  /**
   * The answers after `answerCurrent` has seen `selected` for `q`: a record
   * of the choice, its correctness and the question's difficulty, unless `q`
   * already has one.
   */
  function RecordAnswer(answers: map<string, AnswerRecord>, q: Question, selected: string): (m: map<string, AnswerRecord>)
    ensures q.id in m && m.Keys == answers.Keys + {q.id}
    ensures q.id in answers ==> m == answers
    ensures q.id !in answers ==>
      m[q.id].selected == selected && (m[q.id].correct <==> selected == q.correctAnswer)
      && m[q.id].difficulty == q.difficulty.GetOr("easy")
      && forall k :: k in answers ==> m[k] == answers[k]
  {
    if q.id in answers then answers else answers[q.id := AnswerRecord(selected, selected == q.correctAnswer, q.difficulty.GetOr("easy"))]
  }

  /** No answers, no correct ones. */
  lemma NoCorrectKeys()
    ensures |CorrectKeys(map[])| == 0
  {
    assert CorrectKeys(map[]) == {};
  }

  /** The countdown fields of a session: start, length, pauses and finish. */
  datatype Timer = Timer(startedAt: Option<int>, durationSec: int, pausedMsTotal: int,
                         pausedAt: Option<int>, finishedAt: Option<int>)

  /** Every field of a session, as one value. */
  datatype SessionState = SessionState(status: Status, questions: seq<Question>, currentIndex: int,
                                       answers: map<string, AnswerRecord>, totalCount: int,
                                       answeredCount: int, correctCount: int, wrongCount: int, timer: Timer)

  class QuizSession {
    var status: Status
    var questions: seq<Question>
    var currentIndex: int
    var answers: map<string, AnswerRecord>
    var totalCount: int
    var answeredCount: int
    var correctCount: int
    var wrongCount: int
    var startedAt: Option<int>
    var durationSec: int
    var finishedAt: Option<int>
    var pausedAt: Option<int>
    var pausedMsTotal: int

    /** The countdown fields. */
    function Timing(): Timer
      reads this
    {
      Timer(startedAt, durationSec, pausedMsTotal, pausedAt, finishedAt)
    }

    /** The whole session state. */
    function Snapshot(): SessionState
      reads this
    {
      SessionState(status, questions, currentIndex, answers, totalCount,
                   answeredCount, correctCount, wrongCount, Timing())
    }

    /**
     * What every reducer keeps: one answered count per record, every record
     * either correct or wrong, and the loaded questions' ids distinct.
     */
    ghost predicate Valid()
      reads this
    {
      && 0 <= currentIndex
      && answeredCount == |answers|
      && correctCount == |CorrectKeys(answers)|
      && correctCount + wrongCount == answeredCount
      && DistinctIds(questions)
    }

    /**
     * A started session: the answers belong to the loaded questions and the
     * total is their number. `startQuiz` establishes it; every reducer but
     * the fetch's `fulfilled` keeps it.
     */
    ghost predicate InSession()
      reads this
    {
      Valid() && answers.Keys <= IdsOf(questions) && totalCount == |questions|
    }

    /** The state `initialState` describes. */
    ghost predicate IsInitial()
      reads this
    {
      && status == Idle && questions == [] && currentIndex == 0 && answers == map[]
      && totalCount == 0 && answeredCount == 0 && correctCount == 0 && wrongCount == 0
      && startedAt == None && durationSec == 120 && finishedAt == None
      && pausedAt == None && pausedMsTotal == 0
    }

    constructor ()
      ensures IsInitial() && Valid()
    {
      status, questions, currentIndex, answers := Idle, [], 0, map[];
      totalCount, answeredCount, correctCount, wrongCount := 0, 0, 0, 0;
      startedAt, durationSec, finishedAt := None, 120, None;
      pausedAt, pausedMsTotal := None, 0;
      new;
      NoCorrectKeys();
    }

    /** `startQuiz`: starts the clock at `now`; checks nothing first. */
    method StartQuiz(duration: Option<int>, now: int)
      modifies this
      ensures status == InProgress && currentIndex == 0 && answers == map[]
      ensures answeredCount == 0 && correctCount == 0 && wrongCount == 0
      ensures startedAt == Some(now) && finishedAt == None && pausedAt == None && pausedMsTotal == 0
      ensures durationSec == if duration.Some? && duration.value != 0 then duration.value else old(durationSec)
      ensures questions == old(questions) && totalCount == |questions|
      ensures old(DistinctIds(questions)) ==> InSession()
    {
      status := InProgress;
      currentIndex := 0;
      answers := map[];
      answeredCount, correctCount, wrongCount := 0, 0, 0;
      startedAt := Some(now);
      finishedAt := None;
      pausedAt := None;
      pausedMsTotal := 0;
      if duration.Some? && duration.value != 0 {
        durationSec := duration.value;
      }
      totalCount := |questions|;
      NoCorrectKeys();
    }

    /**
     * The index step shared by `answerCurrent` and `nextQuestion`: move to
     * the next question, or finish at `now` when there is none.
     */
    method Advance(now: int)
      requires Valid()
      modifies this
      ensures Valid()
      ensures old(currentIndex) + 1 >= |questions| ==>
                status == Finished && finishedAt == Some(now) && currentIndex == old(currentIndex)
      ensures old(currentIndex) + 1 < |questions| ==>
                status == old(status) && finishedAt == old(finishedAt) && currentIndex == old(currentIndex) + 1
      ensures questions == old(questions) && answers == old(answers) && totalCount == old(totalCount)
      ensures answeredCount == old(answeredCount) && correctCount == old(correctCount) && wrongCount == old(wrongCount)
      ensures startedAt == old(startedAt) && durationSec == old(durationSec)
      ensures pausedAt == old(pausedAt) && pausedMsTotal == old(pausedMsTotal)
    {
      var next := currentIndex + 1;
      if next >= |questions| {
        status := Finished;
        finishedAt := Some(now);
      } else {
        currentIndex := next;
      }
    }

    /**
     * `answerCurrent`: records `selected` for the current question unless
     * there is none or it already has a record, then advances unless
     * `advance` is `false`. It does not look at the status.
     */
    method AnswerCurrent(selected: string, advance: Option<bool>, now: int)
      requires Valid()
      modifies this
      ensures Valid()
      ensures old(InSession()) ==> InSession()
      ensures !(old(currentIndex) < |old(questions)|) || old(questions[currentIndex].id) in old(answers) ==>
                && status == old(status) && currentIndex == old(currentIndex) && answers == old(answers)
                && answeredCount == old(answeredCount) && correctCount == old(correctCount)
                && wrongCount == old(wrongCount) && finishedAt == old(finishedAt)
      ensures old(currentIndex) < |old(questions)| && old(questions[currentIndex].id) !in old(answers) ==>
                var q := old(questions[currentIndex]);
                var ok := selected == q.correctAnswer;
                && answers == old(answers)[q.id := AnswerRecord(selected, ok, q.difficulty.GetOr("easy"))]
                && answeredCount == old(answeredCount) + 1
                && correctCount == old(correctCount) + (if ok then 1 else 0)
                && wrongCount == old(wrongCount) + (if ok then 0 else 1)
                && (advance == Some(false) ==>
                      status == old(status) && currentIndex == old(currentIndex) && finishedAt == old(finishedAt))
                && (advance != Some(false) && old(currentIndex) + 1 >= |questions| ==>
                      status == Finished && finishedAt == Some(now) && currentIndex == old(currentIndex))
                && (advance != Some(false) && old(currentIndex) + 1 < |questions| ==>
                      status == old(status) && finishedAt == old(finishedAt) && currentIndex == old(currentIndex) + 1)
      ensures questions == old(questions) && totalCount == old(totalCount)
      ensures startedAt == old(startedAt) && durationSec == old(durationSec)
      ensures pausedAt == old(pausedAt) && pausedMsTotal == old(pausedMsTotal)
    {
      if currentIndex >= |questions| {
        return;
      }
      if questions[currentIndex].id in answers {
        return;
      }
      RecordCurrent(selected);
      if advance.GetOr(true) {
        Advance(now);
      }
    }

    /** The recording half of `answerCurrent`, for a current question without a record. */
    method RecordCurrent(selected: string)
      requires Valid() && currentIndex < |questions| && questions[currentIndex].id !in answers
      modifies this`answers, this`answeredCount, this`correctCount, this`wrongCount
      ensures Valid()
      ensures old(InSession()) ==> InSession()
      ensures var q := questions[currentIndex];
              var ok := selected == q.correctAnswer;
              && answers == old(answers)[q.id := AnswerRecord(selected, ok, q.difficulty.GetOr("easy"))]
              && answeredCount == old(answeredCount) + 1
              && correctCount == old(correctCount) + (if ok then 1 else 0)
              && wrongCount == old(wrongCount) + (if ok then 0 else 1)
    {
      var q := questions[currentIndex];
      var record := AnswerRecord(selected, selected == q.correctAnswer, q.difficulty.GetOr("easy"));
      CorrectKeysInsert(answers, q.id, record);
      answers := answers[q.id := record];
      answeredCount := answeredCount + 1;
      correctCount := correctCount + (if record.correct then 1 else 0);
      wrongCount := wrongCount + (if record.correct then 0 else 1);
      assert q.id in IdsOf(questions);
    }

    /** `nextQuestion`: advances only while the quiz is in progress. */
    method NextQuestion(now: int)
      requires Valid()
      modifies this
      ensures Valid()
      ensures old(InSession()) ==> InSession()
      ensures old(status) != InProgress ==> status == old(status) && currentIndex == old(currentIndex) && finishedAt == old(finishedAt)
      ensures old(status) == InProgress && old(currentIndex) + 1 >= |questions| ==>
                status == Finished && finishedAt == Some(now) && currentIndex == old(currentIndex)
      ensures old(status) == InProgress && old(currentIndex) + 1 < |questions| ==>
                status == InProgress && finishedAt == old(finishedAt) && currentIndex == old(currentIndex) + 1
      ensures questions == old(questions) && answers == old(answers) && totalCount == old(totalCount)
      ensures answeredCount == old(answeredCount) && correctCount == old(correctCount) && wrongCount == old(wrongCount)
      ensures startedAt == old(startedAt) && durationSec == old(durationSec)
      ensures pausedAt == old(pausedAt) && pausedMsTotal == old(pausedMsTotal)
    {
      if status != InProgress {
        return;
      }
      Advance(now);
    }

    /** `finishQuiz`: finishes at `now` from any state. */
    method FinishQuiz(now: int)
      requires Valid()
      modifies this`status, this`finishedAt
      ensures Valid() && (old(InSession()) ==> InSession())
      ensures status == Finished && finishedAt == Some(now)
    {
      status := Finished;
      finishedAt := Some(now);
    }

    /** `resetQuiz`: back to `initialState`. */
    method ResetQuiz()
      modifies this
      ensures IsInitial() && Valid()
    {
      status, questions, currentIndex, answers := Idle, [], 0, map[];
      totalCount, answeredCount, correctCount, wrongCount := 0, 0, 0, 0;
      startedAt, durationSec, finishedAt := None, 120, None;
      pausedAt, pausedMsTotal := None, 0;
      NoCorrectKeys();
    }

    /** `pauseTimer`: marks the pause start, only in progress and only when not already paused. */
    method PauseTimer(now: int)
      requires Valid()
      modifies this`pausedAt
      ensures Valid() && (old(InSession()) ==> InSession())
      ensures pausedAt == if status == InProgress && !IsSet(old(pausedAt)) then Some(now) else old(pausedAt)
    {
      if status != InProgress {
        return;
      }
      if IsSet(pausedAt) {
        return;
      }
      pausedAt := Some(now);
    }

    /** `resumeTimer`: folds the pause that is in course into `pausedMsTotal`. */
    method ResumeTimer(now: int)
      requires Valid()
      modifies this`pausedAt, this`pausedMsTotal
      ensures Valid() && (old(InSession()) ==> InSession())
      ensures status == InProgress && IsSet(old(pausedAt)) ==>
                pausedMsTotal == old(pausedMsTotal) + (now - old(pausedAt).value) && pausedAt == None
      ensures !(status == InProgress && IsSet(old(pausedAt))) ==>
                pausedMsTotal == old(pausedMsTotal) && pausedAt == old(pausedAt)
    {
      if status != InProgress {
        return;
      }
      if !IsSet(pausedAt) {
        return;
      }
      pausedMsTotal := pausedMsTotal + (now - pausedAt.value);
      pausedAt := None;
    }

    /** The fetch thunk is pending. */
    method FetchPending()
      requires Valid()
      modifies this`status
      ensures Valid() && (old(InSession()) ==> InSession())
      ensures status == Loading
    {
      status := Loading;
    }

    /** The fetch thunk delivered `payload`; its ids are distinct (they are generated). */
    method FetchFulfilled(payload: seq<Question>)
      requires Valid() && DistinctIds(payload)
      modifies this`questions, this`totalCount, this`status
      ensures Valid()
      ensures questions == payload && totalCount == |payload| && status == Idle
    {
      questions := payload;
      totalCount := |payload|;
      status := Idle;
    }

    /** The fetch thunk failed: back to idle, questions untouched. */
    method FetchRejected()
      requires Valid()
      modifies this`status
      ensures Valid() && (old(InSession()) ==> InSession())
      ensures status == Idle
    {
      status := Idle;
    }
  }

  lemma CorrectKeysInsert(m: map<string, AnswerRecord>, k: string, r: AnswerRecord)
    requires k !in m
    ensures |m[k := r]| == |m| + 1
    ensures |CorrectKeys(m[k := r])| == |CorrectKeys(m)| + (if r.correct then 1 else 0)
  {
    if r.correct {
      assert CorrectKeys(m[k := r]) == CorrectKeys(m) + {k};
    } else {
      assert CorrectKeys(m[k := r]) == CorrectKeys(m);
    }
  }

  /** At most one record per question: a started session never counts more answers than questions. */
  lemma {:induction false} AnsweredAtMostTotal(answers: map<string, AnswerRecord>, questions: seq<Question>)
    requires answers.Keys <= IdsOf(questions)
    ensures |answers| <= |questions|
  {
    assert |answers| == |answers.Keys|;
    IdsOfSize(questions);
    SubsetCardinality(answers.Keys, IdsOf(questions));
  }

  lemma {:induction false} IdsOfSize(qs: seq<Question>)
    ensures |IdsOf(qs)| <= |qs|
    decreases |qs|
  {
    if qs != [] {
      var last := |qs| - 1;
      IdsOfSize(qs[..last]);
      assert IdsOf(qs) == IdsOf(qs[..last]) + {qs[last].id} by {
        forall x | x in IdsOf(qs) ensures x in IdsOf(qs[..last]) + {qs[last].id} {
          var i :| 0 <= i < |qs| && qs[i].id == x;
          if i < last { assert qs[..last][i] == qs[i]; }
        }
        forall x | x in IdsOf(qs[..last]) ensures x in IdsOf(qs) {
          var i :| 0 <= i < last && qs[..last][i].id == x;
          assert qs[i] == qs[..last][i];
        }
      }
    }
  }

  lemma SubsetCardinality<T>(a: set<T>, b: set<T>)
    requires a <= b
    ensures |a| <= |b|
  {
    assert b == a + (b - a);
  }
}
