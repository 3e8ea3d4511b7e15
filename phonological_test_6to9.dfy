/** src/pages/PhonologicalTest6to9.tsx: four "which picture starts with the same
    sound" games; each offers four pictures, one flagged as right, and the
    answers are counted once the last game is played. */
module PhonologicalTest6to9 {
  import opened Json
  import opened Scoring
  import Results

  datatype PictureOption = PictureOption(text: string, emoji: string, correct: bool)

  datatype Question = Question(sound: string, options: seq<PictureOption>)

  const Questions: seq<Question> := [
    Question("Listen: CAT", [
      PictureOption("Dog", "🐕", false), PictureOption("Car", "🚗", true),
      PictureOption("Ball", "⚽", false), PictureOption("Fish", "🐟", false)]),
    Question("Listen: SUN", [
      PictureOption("Moon", "🌙", false), PictureOption("Star", "⭐", true),
      PictureOption("Tree", "🌳", false), PictureOption("House", "🏠", false)]),
    Question("Listen: BALL", [
      PictureOption("Car", "🚗", false), PictureOption("Book", "📚", true),
      PictureOption("Apple", "🍎", false), PictureOption("Dog", "🐕", false)]),
    Question("Listen: DUCK", [
      PictureOption("Cat", "🐱", false), PictureOption("Frog", "🐸", false),
      PictureOption("Door", "🚪", true), PictureOption("Bike", "🚲", false)])]

  const TestKind: string := "Sound Games (Ages 6-9)"

  /** `options.find(opt => opt.correct)?.text`: the text of the first flagged
      option, or nothing when no option is flagged. */
  function FirstCorrect(options: seq<PictureOption>): (t: Option<string>)
    ensures t.Some? <==> exists k :: 0 <= k < |options| && options[k].correct
    ensures t.Some? ==>
      exists k :: 0 <= k < |options| && options[k].correct && options[k].text == t.value && (forall j :: 0 <= j < k ==> !options[j].correct)
  {
    if options == [] then None
    else if options[0].correct then Some(options[0].text)
    else
      var t := FirstCorrect(options[1..]);
      if t.Some? then
        var k :| 0 <= k < |options[1..]| && options[1..][k].correct && options[1..][k].text == t.value
          && (forall j :: 0 <= j < k ==> !options[1..][j].correct);
        assert options[k + 1] == options[1..][k];
        t
      else t
  }

  /** The expected texts, one per game. */
  const Keys: seq<string> := ["Car", "Star", "Book", "Door"]

  /** In every game an option is flagged exactly when its text is the key, so
      exactly one option is flagged (the texts differ) and the first flagged
      text is the key. */
  lemma FlaggedKey(q: nat)
    requires q < |Questions|
    ensures |Keys| == |Questions| == 4
    ensures forall j :: 0 <= j < |Questions[q].options| ==>
      (Questions[q].options[j].correct <==> Questions[q].options[j].text == Keys[q])
    ensures forall i, j :: 0 <= i < j < |Questions[q].options| ==> Questions[q].options[i].text != Questions[q].options[j].text
    ensures FirstCorrect(Questions[q].options) == Some(Keys[q])
  {
    var options := Questions[q].options;
    assert options[0].correct || options[1].correct || options[2].correct;
  }

  /** The count of answers equal to their game's flagged text, over the first n games. */
  function Hits(answers: seq<string>, n: nat): nat
    requires n <= |answers| && n <= |Questions|
  {
    if n == 0 then 0
    else Hits(answers, n - 1) + (if FirstCorrect(Questions[n - 1].options) == Some(answers[n - 1]) then 1 else 0)
  }

  /** Comparing with the first flagged text is comparing with the key. */
  lemma {:induction false} HitsAreMatches(answers: seq<string>, n: nat)
    requires n <= |answers| && n <= |Questions|
    ensures Hits(answers, n) == Matches(answers, Keys, n)
  {
    if n > 0 {
      HitsAreMatches(answers, n - 1);
      FlaggedKey(n - 1);
    }
  }

  /** `newAnswers.reduce(...)` over the four games. */
  function Score(answers: seq<string>): nat
    requires |answers| >= 4
  {
    Hits(answers, 4)
  }

  /** The score is the plain match count against the keys: in 0..4, and 4
      exactly when every answer names the flagged picture. */
  lemma ScoreIsMatchCount(answers: seq<string>)
    requires |answers| >= 4
    ensures Score(answers) == Matches(answers, Keys, 4)
    ensures Score(answers) <= 4
    ensures Score(answers) == 4 <==> forall k :: 0 <= k < 4 ==> answers[k] == Keys[k]
  {
    FlaggedKey(0);
    HitsAreMatches(answers, 4);
    MatchesAll(answers, Keys, 4);
  }

  /** The three tiers of `getRecommendations`. */
  datatype Recommendation = Excellent | GoodJob | PracticeTogether

  function Recommend(score: nat): Recommendation
  {
    if score >= 3 then Excellent else if score >= 2 then GoodJob else PracticeTogether
  }

  function RecommendationText(r: Recommendation): string
  {
    match r
    case Excellent => "Excellent! You're great at hearing the sounds in words. Keep playing with rhyming games!"
    case GoodJob => "Good job! Practice saying words slowly and listening to the first sound. Try rhyming games!"
    case PracticeTogether => "Let's practice together! Play word games and ask a grown-up to help you hear sounds in words."
  }

  /** A perfect run earns the top tier and a run without a right answer the lowest. */
  lemma RecommendationExtremes(answers: seq<string>)
    requires |answers| >= 4
    ensures (forall k :: 0 <= k < 4 ==> answers[k] == Keys[k]) ==> Recommend(Score(answers)) == Excellent
    ensures (forall k :: 0 <= k < 4 ==> answers[k] != Keys[k]) ==> Recommend(Score(answers)) == PracticeTogether
  {
    ScoreIsMatchCount(answers);
    MatchesNone(answers, Keys, 4);
  }

  /** The object stored under "testResults" after the last game. */
  function Record(answers: seq<string>): Value
    requires |answers| >= 4
  {
    var score := Score(answers);
    ScoreRecord(TestKind, score, answers, RecommendationText(Recommend(score)))
  }

  /** The record carries the score but neither `test` nor `accuracy`, so the
      results view rejects it and shows no results. */
  lemma RecordRejected(answers: seq<string>)
    requires |answers| >= 4
    ensures Record(answers).fields["score"] == JNumber(Score(answers) as real)
    ensures !Results.Accepts(Record(answers))
    ensures Results.Load(Results.Parsed(Record(answers))).results == None
  {
    var score := Score(answers);
    Results.ScoreRecordRejected(TestKind, score, answers, RecommendationText(Recommend(score)));
  }

  /** The page's state; `navigated` records that the last game sent the child to the results view. */
  class Session {
    var currentQuestion: nat
    var answers: seq<string>
    var selectedAnswer: string
    var navigated: bool
    var stored: Option<Value>

    ghost predicate Valid()
      reads this
    {
      && currentQuestion < |Questions|
      && |answers| == currentQuestion + (if navigated then 1 else 0)
      && (navigated ==> currentQuestion == |Questions| - 1)
      && (forall k :: 0 <= k < |answers| ==> answers[k] != "")
      && stored == (if navigated then Some(Record(answers)) else None)
    }

    constructor ()
      ensures Valid()
      ensures currentQuestion == 0 && answers == [] && selectedAnswer == "" && !navigated
    {
      currentQuestion := 0;
      answers := [];
      selectedAnswer := "";
      navigated := false;
      stored := None;
    }

    /** `handleAnswerSelect`: the picture's text is remembered. */
    method AnswerSelect(option: PictureOption)
      requires Valid() && !navigated
      modifies this`selectedAnswer
      ensures Valid() && selectedAnswer == option.text
    {
      selectedAnswer := option.text;
    }

    /** `handleNext`, reachable only while a picture is selected: the answer is
        kept, the selection cleared, and the next game shown or, after the last
        one, the record stored. */
    method Next()
      requires Valid() && !navigated && selectedAnswer != ""
      modifies this
      ensures Valid()
      ensures answers == old(answers) + [old(selectedAnswer)] && selectedAnswer == ""
      ensures old(currentQuestion) < |Questions| - 1 ==> currentQuestion == old(currentQuestion) + 1 && !navigated
      ensures old(currentQuestion) == |Questions| - 1 ==>
        && navigated && currentQuestion == old(currentQuestion) && stored == Some(Record(answers))
    {
      var newAnswers := answers + [selectedAnswer];
      answers := newAnswers;
      selectedAnswer := "";
      if currentQuestion < |Questions| - 1 {
        currentQuestion := currentQuestion + 1;
      } else {
        stored := Some(Record(newAnswers));
        navigated := true;
      }
    }
  }
}
