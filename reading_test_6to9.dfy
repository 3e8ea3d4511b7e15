/** src/pages/ReadingTest6to9.tsx: five picture-word questions for younger
    readers; the answers are counted and stored with a recommendation once the
    last question is answered. */
module ReadingTest6to9 {
  import opened Json
  import opened Scoring
  import Results

  datatype Question = Question(image: string, options: seq<string>, correct: string)

  const Questions: seq<Question> := [
    Question("🐱", ["Dog", "Cat", "Bird", "Fish"], "Cat"),
    Question("🍎", ["Orange", "Banana", "Apple", "Grape"], "Apple"),
    Question("🚗", ["Bike", "Plane", "Car", "Train"], "Car"),
    Question("🏠", ["School", "Store", "House", "Hospital"], "House"),
    Question("☀️", ["Moon", "Stars", "Sun", "Clouds"], "Sun")]

  /** The expected option of each question, in order. */
  const Keys: seq<string> := ["Cat", "Apple", "Car", "House", "Sun"]

  const TestKind: string := "Reading Test (Ages 6-9)"

  /** The keys are the questions' `correct` fields, each one of the offered options. */
  lemma KeysAreCorrect()
    ensures |Keys| == |Questions| == 5
    ensures forall k :: 0 <= k < 5 ==> Keys[k] == Questions[k].correct && Keys[k] in Questions[k].options
  {
  }

  /** `newAnswers.reduce(...)`: how many of the five answers equal their key. */
  function Score(answers: seq<string>): nat
    requires |answers| >= 5
  {
    Matches(answers, Keys, 5)
  }

  /** The score lies in 0..5 and is 5 exactly when every answer is its key. */
  lemma ScoreRange(answers: seq<string>)
    requires |answers| >= 5
    ensures Score(answers) <= 5
    ensures Score(answers) == 5 <==> forall k :: 0 <= k < 5 ==> answers[k] == Questions[k].correct
  {
    KeysAreCorrect();
    MatchesAll(answers, Keys, 5);
  }

  /** The three tiers of `getRecommendations`. */
  datatype Recommendation = GreatJob | GoodEffort | WorkTogether

  function Recommend(score: nat): Recommendation
  {
    if score >= 4 then GreatJob else if score >= 2 then GoodEffort else WorkTogether
  }

  function RecommendationText(r: Recommendation): string
  {
    match r
    case GreatJob => "Great job! Your reading recognition skills are developing well. Keep practicing with picture books!"
    case GoodEffort => "Good effort! Consider practicing with more picture-word matching games to strengthen reading skills."
    case WorkTogether => "Let's work together! Try reading simple picture books daily and consider discussing with a teacher or specialist."
  }

  /** A perfect run earns the top tier and a run without a right answer the
      lowest. */
  lemma RecommendationExtremes(answers: seq<string>)
    requires |answers| >= 5
    ensures (forall k :: 0 <= k < 5 ==> answers[k] == Questions[k].correct) ==> Recommend(Score(answers)) == GreatJob
    ensures (forall k :: 0 <= k < 5 ==> answers[k] != Questions[k].correct) ==> Recommend(Score(answers)) == WorkTogether
  {
    KeysAreCorrect();
    MatchesAll(answers, Keys, 5);
    MatchesNone(answers, Keys, 5);
  }

  /** The object stored under "testResults" after the last question. */
  function Record(answers: seq<string>): Value
    requires |answers| >= 5
  {
    var score := Score(answers);
    ScoreRecord(TestKind, score, answers, RecommendationText(Recommend(score)))
  }

  /** The record carries the score but neither `test` nor `accuracy`, so the
      results view rejects it and shows no results. */
  lemma RecordRejected(answers: seq<string>)
    requires |answers| >= 5
    ensures Record(answers).fields["score"] == JNumber(Score(answers) as real)
    ensures !Results.Accepts(Record(answers))
    ensures Results.Load(Results.Parsed(Record(answers))).results == None
  {
    var score := Score(answers);
    Results.ScoreRecordRejected(TestKind, score, answers, RecommendationText(Recommend(score)));
  }

  /** The page's state; `navigated` records that the last answer sent the child to the results view. */
  class Session {
    var currentQuestion: nat
    var answers: seq<string>
    var isTestComplete: bool
    var selectedAnswer: string
    var navigated: bool
    var stored: Option<Value>

    ghost predicate Valid()
      reads this
    {
      && currentQuestion < |Questions|
      && |answers| == currentQuestion + (if isTestComplete then 1 else 0)
      && (isTestComplete ==> currentQuestion == |Questions| - 1)
      && navigated == isTestComplete
      && (forall k :: 0 <= k < |answers| ==> answers[k] != "")
      && stored == (if isTestComplete then Some(Record(answers)) else None)
    }

    constructor ()
      ensures Valid()
      ensures currentQuestion == 0 && answers == [] && selectedAnswer == "" && !isTestComplete
    {
      currentQuestion := 0;
      answers := [];
      isTestComplete := false;
      selectedAnswer := "";
      navigated := false;
      stored := None;
    }

    /** `handleAnswerSelect` */
    method AnswerSelect(answer: string)
      requires Valid() && !navigated
      modifies this`selectedAnswer
      ensures Valid() && selectedAnswer == answer
    {
      selectedAnswer := answer;
    }

    /** `handleNext`, reachable only while an option is selected: the answer is
        kept and the selection cleared; the next question is shown or, after
        the last one, the test is marked complete and the record stored. */
    method Next()
      requires Valid() && !navigated && selectedAnswer != ""
      modifies this
      ensures Valid()
      ensures answers == old(answers) + [old(selectedAnswer)] && selectedAnswer == ""
      ensures old(currentQuestion) < |Questions| - 1 ==>
        currentQuestion == old(currentQuestion) + 1 && !isTestComplete
      ensures old(currentQuestion) == |Questions| - 1 ==>
        && isTestComplete && navigated && currentQuestion == old(currentQuestion)
        && stored == Some(Record(answers))
    {
      var newAnswers := answers + [selectedAnswer];
      answers := newAnswers;
      selectedAnswer := "";
      if currentQuestion < |Questions| - 1 {
        currentQuestion := currentQuestion + 1;
      } else {
        isTestComplete := true;
        stored := Some(Record(newAnswers));
        navigated := true;
      }
    }
  }
}
