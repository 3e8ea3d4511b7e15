/** src/pages/ReadingTest9to12.tsx: three short passages, each followed by one
    multiple-choice question; the answers are counted against the expected
    options once the last question is answered. */
module ReadingTest9to12 {
  import opened Json
  import opened Scoring
  import Results

  datatype Question = Question(options: seq<string>, correct: string)

  const Questions: seq<Question> := [
    Question(["In a house", "In a library", "In a forest", "In a school"], "In a library"),
    Question(["One week", "Two weeks", "One month", "Three weeks"], "Two weeks"),
    Question(["One day", "Two days", "Three days", "Every day"], "Two days")]

  /** The expected option of each question, in order. */
  const Keys: seq<string> := ["In a library", "Two weeks", "Two days"]

  const TestName: string := "Reading Test (Ages 9–12)"

  /** The keys are the questions' `correct` fields, each one of the offered options. */
  lemma KeysAreCorrect()
    ensures |Keys| == |Questions| == 3
    ensures forall k :: 0 <= k < 3 ==> Keys[k] == Questions[k].correct && Keys[k] in Questions[k].options
  {
  }

  /** `newAnswers.reduce(...)`: how many of the three answers equal their key. */
  function Score(answers: seq<string>): nat
    requires |answers| >= 3
  {
    Matches(answers, Keys, 3)
  }

  /** The score lies in 0..3 and is 3 exactly when every answer is its key. */
  lemma ScoreRange(answers: seq<string>)
    requires |answers| >= 3
    ensures Score(answers) <= 3
    ensures Score(answers) == 3 <==> forall k :: 0 <= k < 3 ==> answers[k] == Questions[k].correct
  {
    KeysAreCorrect();
    MatchesAll(answers, Keys, 3);
  }

  /** The `isCorrect` flags of `detailedResults`, one per question. */
  function Details(answers: seq<string>): seq<bool>
    requires |answers| >= 3
  {
    MatchFlags(answers, Keys, 3)
  }

  /** Each flag says whether that answer equals the key, and the flags set
      number exactly the score. */
  lemma DetailsAgreeWithScore(answers: seq<string>)
    requires |answers| >= 3
    ensures |Details(answers)| == 3
    ensures forall k :: 0 <= k < 3 ==> (Details(answers)[k] <==> answers[k] == Questions[k].correct)
    ensures CountTrue(Details(answers)) == Score(answers)
  {
    KeysAreCorrect();
    MatchFlagsCount(answers, Keys, 3);
  }

  /** `score >= 4 ? "Low" : score >= 2 ? "Moderate" : "High"` */
  function Level(score: nat): RiskLevel
  {
    if score >= 4 then Low else if score >= 2 then Moderate else High
  }

  /** With three questions the Low threshold of 4 is out of reach: even a
      perfect run is stored as Moderate, and two or more right answers give
      Moderate, fewer give High. */
  lemma NeverLow(answers: seq<string>)
    requires |answers| >= 3
    ensures Level(Score(answers)) != Low
    ensures Level(Score(answers)) == Moderate <==> Score(answers) >= 2
  {
  }

  /** `Math.round((score / questions.length) * 100)` */
  function Percentage(score: nat): int
  {
    Round(score as real / 3.0 * 100.0)
  }

  /** The four possible scores give 0, 33, 67 and 100 percent. */
  lemma PercentageValues(answers: seq<string>)
    requires |answers| >= 3
    ensures var p := Percentage(Score(answers));
      && 0 <= p <= 100
      && (p == 100 <==> Score(answers) == 3)
      && (Score(answers) == 2 ==> p == 67) && (Score(answers) == 1 ==> p == 33) && (Score(answers) == 0 ==> p == 0)
  {
  }

  function Record(answers: seq<string>): Value
    requires |answers| >= 3
  {
    var score := Score(answers);
    SummaryRecord(TestName, Percentage(score), Level(score), score, Details(answers), "Easy")
  }

  /** The results view accepts the record and shows the level it carries. */
  lemma RecordAccepted(answers: seq<string>)
    requires |answers| >= 3
    ensures Results.Accepts(Record(answers))
    ensures Results.ShownLevel(Record(answers).fields["riskLevel"].s) == Level(Score(answers))
  {
    var score := Score(answers);
    Results.SummaryRecordAccepted(TestName, Percentage(score), Level(score), score, Details(answers), "Easy");
  }

  /** The three tiers of `getRecommendations`. */
  datatype Recommendation = ExcellentComprehension | GoodJob | WorkTogether

  function Recommend(score: nat): Recommendation
  {
    if score >= 3 then ExcellentComprehension else if score >= 2 then GoodJob else WorkTogether
  }

  /** The recommendation tiers cut at 3 and 2 while the levels cut at 4 and 2:
      they agree below 3, and a perfect score earns the top recommendation
      next to a Moderate level. */
  lemma RecommendationVersusLevel(score: nat)
    ensures score < 3 ==> (Recommend(score) == GoodJob <==> Level(score) == Moderate)
    ensures score < 3 ==> (Recommend(score) == WorkTogether <==> Level(score) == High)
    ensures score == 3 ==> Recommend(score) == ExcellentComprehension && Level(score) == Moderate
  {
  }

  /** A perfect run earns the top recommendation and a run without a right
      answer the lowest. */
  lemma RecommendationExtremes(answers: seq<string>)
    requires |answers| >= 3
    ensures (forall k :: 0 <= k < 3 ==> answers[k] == Questions[k].correct) ==> Recommend(Score(answers)) == ExcellentComprehension
    ensures (forall k :: 0 <= k < 3 ==> answers[k] != Questions[k].correct) ==> Recommend(Score(answers)) == WorkTogether
  {
    KeysAreCorrect();
    MatchesAll(answers, Keys, 3);
    MatchesNone(answers, Keys, 3);
  }

  /** The page's state; `navigated` records that the last answer sent the reader to the results view. */
  class Session {
    var currentQuestion: nat
    var answers: seq<string>
    var selectedAnswer: string
    var navigated: bool
    var stored: Option<Value>

    ghost predicate Valid()
      reads this
    {
      && currentQuestion < |Questions|
      && |answers| == currentQuestion + (if navigated then 1 else 0)
      && (navigated ==> currentQuestion == |Questions| - 1)
      && (forall k :: 0 <= k < |answers| ==> answers[k] != "")
      && stored == (if navigated then Some(Record(answers)) else None)
    }

    constructor ()
      ensures Valid()
      ensures currentQuestion == 0 && answers == [] && selectedAnswer == "" && !navigated
    {
      currentQuestion := 0;
      answers := [];
      selectedAnswer := "";
      navigated := false;
      stored := None;
    }

    /** `handleAnswerSelect` */
    method AnswerSelect(answer: string)
      requires Valid() && !navigated
      modifies this`selectedAnswer
      ensures Valid() && selectedAnswer == answer
    {
      selectedAnswer := answer;
    }

    /** `handleNext`, reachable only while an option is selected: the answer is
        kept, the selection cleared, and the next question shown or, after the
        last one, the graded record stored. */
    method Next()
      requires Valid() && !navigated && selectedAnswer != ""
      modifies this
      ensures Valid()
      ensures answers == old(answers) + [old(selectedAnswer)] && selectedAnswer == ""
      ensures old(currentQuestion) < |Questions| - 1 ==> currentQuestion == old(currentQuestion) + 1 && !navigated
      ensures old(currentQuestion) == |Questions| - 1 ==>
        && navigated && currentQuestion == old(currentQuestion) && stored == Some(Record(answers))
    {
      var newAnswers := answers + [selectedAnswer];
      answers := newAnswers;
      selectedAnswer := "";
      if currentQuestion < |Questions| - 1 {
        currentQuestion := currentQuestion + 1;
      } else {
        stored := Some(Record(newAnswers));
        navigated := true;
      }
    }
  }
}
