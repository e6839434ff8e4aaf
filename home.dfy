/**
 * The home page: which difficulty sections a player's level unlocks, the
 * greeting for the level, the category table, and the requests its
 * "start" buttons make.
 */
module Home {
  import opened Common
  import opened Text
  import opened QuizSlice

  /** How hard a difficulty is, easiest lowest. */
  function Hardness(d: Difficulty): nat {
    match d
    case Easy => 0
    case Medium => 1
    case Hard => 2
  }

  /**
   * `difficultiesToShow`: easy always, medium from level 11, hard from
   * level 30, hardest first.
   */
  function DifficultiesToShow(level: int): (ds: seq<Difficulty>)
    ensures Easy in ds
    ensures Medium in ds <==> level > 10
    ensures Hard in ds <==> level > 29
    ensures ds[|ds| - 1] == Easy
    ensures forall i, j :: 0 <= i < j < |ds| ==> Hardness(ds[i]) > Hardness(ds[j])
  {
    if level <= 10 then [Easy]
    else if level <= 29 then [Medium, Easy]
    else [Hard, Medium, Easy]
  }

  /** A higher level never hides a section a lower one shows. */
  lemma UnlockedStaysUnlocked(a: int, b: int, d: Difficulty)
    requires a <= b && d in DifficultiesToShow(a)
    ensures d in DifficultiesToShow(b)
  {
  }

  /** `heroCopyByLevel` */
  datatype HeroCopy = HeroCopy(title: string, subtitle: string)

  function HeroCopyByLevel(level: int): (h: HeroCopy)
    ensures h.title == "Warm-up round" <==> level <= 10
    ensures h.title == "Leveling up" <==> 10 < level <= 29
    ensures h.title == "Challenge mode" <==> 29 < level
  {
    if level <= 10 then
      HeroCopy("Warm-up round", "Start simple, build momentum, and stack up XP.")
    else if level <= 29 then
      HeroCopy("Leveling up", "Step into Medium for a bigger challenge, or stay in Easy to farm XP.")
    else
      HeroCopy("Challenge mode", "Hard is open. Push your limits or sharpen up in Medium/Easy.")
  }

  /** The greeting follows the same level bands as the sections: two levels share one iff they show the same sections. */
  lemma HeroFollowsSections(a: int, b: int)
    ensures HeroCopyByLevel(a) == HeroCopyByLevel(b) <==> DifficultiesToShow(a) == DifficultiesToShow(b)
  {
    assert HeroCopyByLevel(0).title[0] != HeroCopyByLevel(11).title[0];
    assert HeroCopyByLevel(0).title[0] != HeroCopyByLevel(30).title[0];
    assert HeroCopyByLevel(11).title[0] != HeroCopyByLevel(30).title[0];
  }

  /** `CATEGORIES`: the trivia provider's categories as (id, name). */
  function Categories(): (cs: seq<(int, string)>)
    ensures |cs| == 24
    ensures forall i :: 0 <= i < |cs| ==> cs[i].0 == 9 + i && |cs[i].1| >= 3
  {
    [(9, "General Knowledge"),
     (10, "Entertainment: Books"),
     (11, "Entertainment: Film"),
     (12, "Entertainment: Music"),
     (13, "Entertainment: Musicals & Theatres"),
     (14, "Entertainment: Television"),
     (15, "Entertainment: Video Games"),
     (16, "Entertainment: Board Games"),
     (17, "Science & Nature"),
     (18, "Science: Computers"),
     (19, "Science: Mathematics"),
     (20, "Mythology"),
     (21, "Sports"),
     (22, "Geography"),
     (23, "History"),
     (24, "Politics"),
     (25, "Art"),
     (26, "Celebrities"),
     (27, "Animals"),
     (28, "Vehicles"),
     (29, "Entertainment: Comics"),
     (30, "Science: Gadgets"),
     (31, "Entertainment: Japanese Anime & Manga"),
     (32, "Entertainment: Cartoon & Animations")]
  }

  /** No two categories share an id or a name. */
  lemma CategoriesDistinct()
    ensures forall i, j :: 0 <= i < j < |Categories()| ==> Categories()[i].0 != Categories()[j].0
    ensures forall i, j :: 0 <= i < j < |Categories()| ==> Categories()[i].1 != Categories()[j].1
  {
    var cs := Categories();
    forall i, j | 0 <= i < j < |cs| ensures cs[i].1 != cs[j].1 {
      NamesDiffer(i, j);
    }
  }

  /** Two different category names differ in length or in one of their first few characters. */
  lemma NamesDiffer(i: int, j: int)
    requires 0 <= i < j < 24
    ensures Categories()[i].1 != Categories()[j].1
  {
    var a, b := Categories()[i].1, Categories()[j].1;
    if |a| == |b| && |a| >= 16 {
      assert a[0] != b[0] || a[7] != b[7] || a[15] != b[15];
    } else if |a| == |b| {
      assert a[0] != b[0];
    }
  }

  /** The first index whose category carries `name`, or -1. */
  function CategoryIndex(name: string): (i: int)
    ensures -1 <= i < |Categories()|
    ensures i == -1 <==> forall k :: 0 <= k < |Categories()| ==> Categories()[k].1 != name
    ensures 0 <= i ==> Categories()[i].1 == name
  {
    IndexWhere(Categories(), (c: (int, string)) => c.1 == name)
  }

  /** `getCategoryIdFromName`: no id for a missing or empty name or one that is not listed. */
  function CategoryIdFromName(name: Option<string>): (id: Option<int>)
    ensures id.Some? <==> name.Some? && name.value != "" && exists k :: 0 <= k < |Categories()| && Categories()[k].1 == name.value
    ensures id.Some? ==> exists k :: 0 <= k < |Categories()| && Categories()[k] == (id.value, name.value)
  {
    if name.None? || name.value == "" then None
    else
      var i := CategoryIndex(name.value);
      if i < 0 then None else Some(Categories()[i].0)
  }

  /** Every listed category's name looks up its own id. */
  lemma CategoryLookupRoundTrip(k: int)
    requires 0 <= k < |Categories()|
    ensures CategoryIdFromName(Some(Categories()[k].1)) == Some(Categories()[k].0)
  {
    var name := Categories()[k].1;
    var i := CategoryIndex(name);
    assert i != -1;
    if i < k {
      NamesDiffer(i, k);
    } else if k < i {
      NamesDiffer(k, i);
    }
    assert i == k;
    assert name != "";
    assert CategoryIdFromName(Some(name)) == Some(Categories()[i].0);
  }

  /** `titleCaseDifficulty`: the name with its first character upper-cased. */
  function TitleCaseDifficulty(d: Difficulty): (t: string)
    ensures |t| == |DifficultyName(d)| && t[0] == UpperChar(DifficultyName(d)[0])
    ensures t[1..] == DifficultyName(d)[1..]
  {
    var n := DifficultyName(d);
    [UpperChar(n[0])] + n[1..]
  }

  lemma TitleCaseNames()
    ensures TitleCaseDifficulty(Easy) == "Easy"
    ensures TitleCaseDifficulty(Medium) == "Medium"
    ensures TitleCaseDifficulty(Hard) == "Hard"
  {
  }

  /** `LastQuizMeta`: what is remembered of the last quiz requested. */
  datatype LastQuizMeta = LastQuizMeta(
    title: string,
    difficulty: Difficulty,
    categoryId: Option<int>,
    categoryName: Option<string>,
    amount: Option<int>,
    quizType: Option<QuizType>,
    playedAt: int)

  /** The remembered title of a category quiz. */
  function CategoryQuizTitle(d: Difficulty, categoryName: Option<string>): (t: string)
    ensures categoryName.Some? && categoryName.value != "" ==>
      t == categoryName.value + " (" + TitleCaseDifficulty(d) + ")"
    ensures !(categoryName.Some? && categoryName.value != "") ==>
      t == "All Categories (" + TitleCaseDifficulty(d) + ")"
  {
    if categoryName.Some? && categoryName.value != "" then categoryName.value + " (" + TitleCaseDifficulty(d) + ")"
    else "All Categories (" + TitleCaseDifficulty(d) + ")"
  }

  /**
   * `startCategoryQuiz`: ten questions of the chosen type, difficulty and
   * category, and the meta remembered for "play again".
   */
  function StartCategoryQuiz(d: Difficulty, t: QuizType, categoryId: Option<int>,
                             categoryName: Option<string>, now: int): (r: (FetchArgs, LastQuizMeta))
    ensures r.0.amount == Some(10) && r.0.quizType == Some(t) && r.0.difficulty == Some(d) && r.0.category == categoryId
    ensures r.1.difficulty == d && r.1.categoryId == categoryId && r.1.categoryName == categoryName
    ensures r.1.title == CategoryQuizTitle(d, categoryName) && r.1.playedAt == now
    ensures StartLatestQuiz(Some(r.1)) == r.0
  {
    (FetchArgs(Some(10), Some(t), Some(d), categoryId),
     LastQuizMeta(CategoryQuizTitle(d, categoryName), d, categoryId, categoryName, Some(10), Some(t), now))
  }

  /** `startLatestQuiz`: the remembered request, with easy, ten and multiple choice where nothing is remembered. */
  function StartLatestQuiz(last: Option<LastQuizMeta>): (args: FetchArgs)
    ensures last.None? ==> args == FetchArgs(Some(10), Some(Multiple), Some(Easy), None)
    ensures last.Some? ==> args.difficulty == Some(last.value.difficulty) && args.category == last.value.categoryId
    ensures last.Some? ==> args.amount == Some(last.value.amount.GetOr(10))
    ensures last.Some? ==> args.quizType == Some(last.value.quizType.GetOr(Multiple))
  {
    if last.None? then FetchArgs(Some(10), Some(Multiple), Some(Easy), None)
    else
      var m := last.value;
      FetchArgs(Some(m.amount.GetOr(10)), Some(m.quizType.GetOr(Multiple)), Some(m.difficulty), m.categoryId)
  }

  /** "Play again" after a category quiz repeats exactly the request that quiz made. */
  lemma LatestRepeatsCategoryQuiz(d: Difficulty, t: QuizType, categoryId: Option<int>,
                                  categoryName: Option<string>, now: int)
    ensures var r := StartCategoryQuiz(d, t, categoryId, categoryName, now);
      StartLatestQuiz(Some(r.1)) == r.0
  {
  }

  /**
   * The query a category quiz sends: ten questions, its type, always a
   * difficulty, and a category exactly when a non-zero one was chosen.
   */
  lemma CategoryQuizQuery(d: Difficulty, t: QuizType, categoryId: Option<int>, categoryName: Option<string>, now: int)
    ensures var q := BuildQuery(StartCategoryQuiz(d, t, categoryId, categoryName, now).0);
      && q[0] == ("amount", "10") && q[1] == ("type", QuizTypeName(t))
      && HasParam(q, "difficulty")
      && (forall i :: 0 <= i < |q| && q[i].0 == "difficulty" ==> q[i].1 == DifficultyName(d))
      && (HasParam(q, "category") <==> categoryId.Some? && categoryId.value != 0)
  {
    assert IntToString(10) == "10";
  }
}
