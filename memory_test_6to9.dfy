/** src/pages/MemoryTest6to9.tsx: three picture-memory tasks for younger
    children. Three items are shown for a few seconds, then the child picks up
    to three of six options; the picks are stored as one ", "-joined string per
    task and graded with partial credit once the last task is answered. */
module MemoryTest6to9 {
  import opened Json
  import opened Scoring
  import opened Text
  import Results

  /** The pictures shown, the options offered and the three expected options. */
  datatype Question = Question(items: seq<string>, options: seq<string>, correct: seq<string>)

  const Questions: seq<Question> := [
    Question(["🍎", "🐱", "🚗"],
      ["🍎 Apple", "🐕 Dog", "🐱 Cat", "🚗 Car", "🌟 Star", "🏠 House"],
      ["🍎 Apple", "🐱 Cat", "🚗 Car"]),
    Question(["⭐", "🌙", "🌳"],
      ["⭐ Star", "☀️ Sun", "🌙 Moon", "🌳 Tree", "🌸 Flower", "🦋 Butterfly"],
      ["⭐ Star", "🌙 Moon", "🌳 Tree"]),
    Question(["📚", "✏️", "🎒"],
      ["📚 Book", "✏️ Pencil", "🖥️ Computer", "🎒 Backpack", "📝 Paper", "🖊️ Pen"],
      ["📚 Book", "✏️ Pencil", "🎒 Backpack"])]

  /** How many options a child may pick, and how many seconds the pictures stay up. */
  const MaxPicks: nat := 3
  const ShowSeconds: nat := 3

  const TestName: string := "Memory Match (Ages 6-9)"

  /** Every task expects three different options, all among those offered, none
      empty and none holding the separator the answers are joined with. */
  lemma BankFacts(k: nat)
    requires k < |Questions|
    ensures |Questions| == 3
    ensures |Questions[k].correct| == 3 && Distinct(Questions[k].correct)
    ensures forall j :: 0 <= j < 3 ==> Questions[k].correct[j] in Questions[k].options && Questions[k].correct[j] != ""
    ensures forall j :: 0 <= j < |Questions[k].options| ==> !HasSeparator(Questions[k].options[j])
  {
    NoSeparatorInOptions(k);
  }

  lemma NoSeparatorInOptions(k: nat)
    requires k < |Questions|
    ensures forall j :: 0 <= j < |Questions[k].options| ==> !HasSeparator(Questions[k].options[j])
  {
    var options := Questions[k].options;
    forall j | 0 <= j < |options|
      ensures !HasSeparator(options[j])
    {
      assert forall i :: 0 <= i < |options[j]| ==> options[j][i] != ',';
    }
  }

  // ---------------------------------------------------------------------
  // Picking options

  /** `selectedAnswers.filter(a => a !== answer)` */
  function Without(xs: seq<string>, answer: string): (r: seq<string>)
    ensures forall x :: x in r <==> x in xs && x != answer
    ensures |r| <= |xs| && (answer in xs ==> |r| < |xs|)
    ensures Distinct(xs) ==> Distinct(r)
  {
    if xs == [] then []
    else
      var rest := Without(xs[..|xs| - 1], answer);
      var last := xs[|xs| - 1];
      assert xs == xs[..|xs| - 1] + [last];
      if last == answer then rest
      else
        assert Distinct(xs) ==> last !in xs[..|xs| - 1] && last !in rest;
        rest + [last]
  }

  /** Removing an option that was never picked changes nothing. */
  lemma {:induction false} WithoutAbsent(xs: seq<string>, answer: string)
    requires answer !in xs
    ensures Without(xs, answer) == xs
  {
    if xs != [] {
      WithoutAbsent(xs[..|xs| - 1], answer);
      assert xs == xs[..|xs| - 1] + [xs[|xs| - 1]];
    }
  }

  /** `handleAnswerToggle`: a picked option is taken back; another one is added
      only while fewer than three are picked. */
  function Toggle(selected: seq<string>, answer: string): (r: seq<string>)
    ensures answer in r <==> answer !in selected && |selected| < MaxPicks
    ensures forall x :: x != answer ==> (x in r <==> x in selected)
    ensures |selected| <= MaxPicks ==> |r| <= MaxPicks
    ensures Distinct(selected) && answer !in selected ==> Distinct(r)
    ensures Distinct(selected) && answer in selected ==> Distinct(r)
  {
    if answer in selected then Without(selected, answer)
    else if |selected| < MaxPicks then selected + [answer]
    else selected
  }

  /** Picking an option and then picking it again restores the earlier selection. */
  lemma ToggleUndoesPick(selected: seq<string>, answer: string)
    requires answer !in selected && |selected| < MaxPicks
    ensures Toggle(Toggle(selected, answer), answer) == selected
  {
    var picked := selected + [answer];
    assert picked[..|picked| - 1] == selected;
    WithoutAbsent(selected, answer);
  }

  /** Taking an option back and picking it again gives the same options, the
      re-picked one now last. */
  lemma ToggleUndoesUnpick(selected: seq<string>, answer: string)
    requires answer in selected && |selected| <= MaxPicks
    ensures Toggle(Toggle(selected, answer), answer) == Without(selected, answer) + [answer]
    ensures forall x :: x in Toggle(Toggle(selected, answer), answer) <==> x in selected
  {
  }

  // ---------------------------------------------------------------------
  // Scoring

  /** How many of the first n expected options occur among the parts, each
      counted once: `[...correctSet].filter(item => answerSet.has(item)).length`. */
  function Hits(correct: seq<string>, parts: seq<string>, n: nat): (h: nat)
    requires n <= |correct|
    ensures h <= n
  {
    if n == 0 then 0
    else Hits(correct, parts, n - 1) + (if correct[n - 1] in parts && correct[n - 1] !in correct[..n - 1] then 1 else 0)
  }

  /** With distinct expected options, every one of them is hit exactly when all occur among the parts. */
  lemma {:induction false} HitsAll(correct: seq<string>, parts: seq<string>, n: nat)
    requires n <= |correct| && Distinct(correct)
    ensures Hits(correct, parts, n) == n <==> forall k :: 0 <= k < n ==> correct[k] in parts
  {
    if n > 0 {
      HitsAll(correct, parts, n - 1);
      assert correct[n - 1] !in correct[..n - 1];
    }
  }

  /** None of the expected options is hit when none occurs among the parts. */
  lemma {:induction false} HitsNone(correct: seq<string>, parts: seq<string>, n: nat)
    requires n <= |correct|
    requires forall k :: 0 <= k < n ==> correct[k] !in parts
    ensures Hits(correct, parts, n) == 0
  {
    if n > 0 {
      HitsNone(correct, parts, n - 1);
    }
  }

  /** One task's credit: a whole point for all three expected options, 0.33 for each otherwise. */
  function Credit(answer: string, correct: seq<string>): real
  {
    var c := Hits(correct, Split(answer), |correct|);
    if c == 3 then 1.0 else 0.33 * (c as real)
  }

  /** For a three-option task the credit lies between 0 and 1; it is 1 exactly
      when every expected option was picked, and partial credit is at most 0.66. */
  lemma CreditRange(answer: string, correct: seq<string>)
    requires |correct| == 3 && Distinct(correct)
    ensures 0.0 <= Credit(answer, correct) <= 1.0
    ensures Credit(answer, correct) == 1.0 <==> forall k :: 0 <= k < 3 ==> correct[k] in Split(answer)
    ensures Credit(answer, correct) < 1.0 ==> Credit(answer, correct) <= 0.66
  {
    HitsAll(correct, Split(answer), 3);
  }

  /** `newAnswers.reduce(...)` over the first n tasks. */
  function Score(answers: seq<string>, n: nat): real
    requires n <= |answers| && n <= |Questions|
  {
    if n == 0 then 0.0 else Score(answers, n - 1) + Credit(answers[n - 1], Questions[n - 1].correct)
  }

  /** The total lies between 0 and the number of tasks graded. */
  lemma {:induction false} ScoreRange(answers: seq<string>, n: nat)
    requires n <= |answers| && n <= |Questions|
    ensures 0.0 <= Score(answers, n) <= n as real
  {
    if n > 0 {
      BankFacts(n - 1);
      ScoreRange(answers, n - 1);
      CreditRange(answers[n - 1], Questions[n - 1].correct);
    }
  }

  /** A full score of 3 needs every task fully right; anything less is at most 2.66. */
  lemma FullScoreIffAllRight(answers: seq<string>)
    requires |answers| >= 3
    ensures Score(answers, 3) >= 3.0 <==> forall k :: 0 <= k < 3 ==> Credit(answers[k], Questions[k].correct) == 1.0
    ensures Score(answers, 3) < 3.0 ==> Score(answers, 3) <= 2.66
    ensures Score(answers, 3) <= 3.0
  {
    var c0, c1, c2 := Credit(answers[0], Questions[0].correct),
      Credit(answers[1], Questions[1].correct), Credit(answers[2], Questions[2].correct);
    assert Score(answers, 1) == c0;
    assert Score(answers, 2) == c0 + c1;
    assert Score(answers, 3) == c0 + c1 + c2;
    BankFacts(0);
    CreditRange(answers[0], Questions[0].correct);
    BankFacts(1);
    CreditRange(answers[1], Questions[1].correct);
    BankFacts(2);
    CreditRange(answers[2], Questions[2].correct);
    ThreeCredits(c0, c1, c2);
  }

  /** Three credits, each either 1 or at most 0.66, reach 3 only when all are 1. */
  lemma ThreeCredits(c0: real, c1: real, c2: real)
    requires 0.0 <= c0 <= 1.0 && (c0 < 1.0 ==> c0 <= 0.66)
    requires 0.0 <= c1 <= 1.0 && (c1 < 1.0 ==> c1 <= 0.66)
    requires 0.0 <= c2 <= 1.0 && (c2 < 1.0 ==> c2 <= 0.66)
    ensures c0 + c1 + c2 >= 3.0 <==> c0 == 1.0 && c1 == 1.0 && c2 == 1.0
    ensures c0 + c1 + c2 < 3.0 ==> c0 + c1 + c2 <= 2.66
  {
  }

  /** A selection of options from a task, stored joined and graded from the
      split string, earns the whole point exactly when it holds every expected option. */
  lemma PickedOptionsCredit(k: nat, selected: seq<string>)
    requires k < 3 && |selected| >= 1
    requires forall j :: 0 <= j < |selected| ==> selected[j] in Questions[k].options
    ensures Credit(Join(selected), Questions[k].correct) == 1.0
      <==> forall j :: 0 <= j < 3 ==> Questions[k].correct[j] in selected
  {
    BankFacts(k);
    SplitJoin(selected);
    CreditRange(Join(selected), Questions[k].correct);
  }

  /** An empty selection is stored as "", which earns nothing. */
  lemma EmptySelectionScoresZero(k: nat)
    requires k < 3
    ensures Credit(Join([]), Questions[k].correct) == 0.0
  {
    BankFacts(k);
    SplitJoinEmpty();
    HitsNone(Questions[k].correct, [""], 3);
  }

  /** The `isCorrect` flag of the detailed results: an empty answer has no
      parts; otherwise every expected option must be among the parts and there
      must be exactly as many parts as expected options. */
  function IsCorrect(answer: string, correct: seq<string>): bool
  {
    var parts := if answer != "" then Split(answer) else [];
    (forall k :: 0 <= k < |correct| ==> correct[k] in parts) && |parts| == |correct|
  }

  /** The flag agrees with the score: a task is marked correct exactly when it
      earned the whole point with exactly three parts. */
  lemma IsCorrectIffFullCredit(answer: string, k: nat)
    requires k < 3
    ensures IsCorrect(answer, Questions[k].correct)
      <==> Credit(answer, Questions[k].correct) == 1.0 && |Split(answer)| == 3
  {
    BankFacts(k);
    CreditRange(answer, Questions[k].correct);
    if answer == "" {
      assert Split(answer) == [""];
    }
  }

  // ---------------------------------------------------------------------
  // The stored record

  /** `score >= 3 ? "Low" : score >= 2 ? "Moderate" : "High"` */
  function Level(score: real): RiskLevel
  {
    if score >= 3.0 then Low else if score >= 2.0 then Moderate else High
  }

  /** `Math.round((score / questions.length) * 100)` */
  function Percentage(score: real): int
  {
    Round(score / 3.0 * 100.0)
  }

  /** Low exactly when all three tasks are fully right, which is also exactly
      when the stored percentage is 100; the percentage stays within 0..100. */
  lemma LevelRules(answers: seq<string>)
    requires |answers| >= 3
    ensures var s := Score(answers, 3);
      && (Level(s) == Low <==> forall k :: 0 <= k < 3 ==> Credit(answers[k], Questions[k].correct) == 1.0)
      && (Level(s) == Low <==> Percentage(s) == 100)
      && 0 <= Percentage(s) <= 100
  {
    FullScoreIffAllRight(answers);
    ScoreRange(answers, 3);
  }

  /** The `isCorrect` flags of the three tasks. */
  function Details(answers: seq<string>): (d: seq<bool>)
    requires |answers| >= 3
    ensures |d| == 3
  {
    seq(3, idx requires 0 <= idx < 3 => IsCorrect(answers[idx], Questions[idx].correct))
  }

  /** The object stored under "testResults" after the last task. */
  function Record(answers: seq<string>): Value
    requires |answers| >= 3
  {
    var score := Score(answers, 3);
    SummaryRecord(TestName, Percentage(score), Level(score), Round(score), Details(answers), "Normal")
  }

  /** The results view always accepts this record and shows the level the score gave. */
  lemma RecordAccepted(answers: seq<string>)
    requires |answers| >= 3
    ensures Results.Accepts(Record(answers))
    ensures Results.ShownLevel(Record(answers).fields["riskLevel"].s) == Level(Score(answers, 3))
  {
    var score := Score(answers, 3);
    Results.SummaryRecordAccepted(TestName, Percentage(score), Level(score), Round(score), Details(answers), "Normal");
  }

  /** The three tiers of `getRecommendations`. */
  datatype Recommendation = AmazingMemory | GoodJob | LetsPractice

  function Recommend(score: real): Recommendation
  {
    if score >= 3.0 then AmazingMemory else if score >= 2.0 then GoodJob else LetsPractice
  }

  /** The recommendation tiers cut the score where the risk levels do. */
  lemma RecommendationFollowsLevel(score: real)
    ensures Recommend(score) == AmazingMemory <==> Level(score) == Low
    ensures Recommend(score) == GoodJob <==> Level(score) == Moderate
    ensures Recommend(score) == LetsPractice <==> Level(score) == High
  {
  }

  // ---------------------------------------------------------------------
  // The page

  /** The page's state; `navigated` records that the last task sent the child to the results view. */
  class Session {
    var currentQuestion: nat
    var answers: seq<string>
    var selectedAnswers: seq<string>
    var showItems: bool
    var timer: int
    var navigated: bool
    var stored: Option<Value>

    ghost predicate Valid()
      reads this
    {
      && currentQuestion < |Questions|
      && |answers| == currentQuestion + (if navigated then 1 else 0)
      && (navigated ==> currentQuestion == |Questions| - 1)
      && |selectedAnswers| <= MaxPicks && Distinct(selectedAnswers)
      && 0 <= timer <= ShowSeconds
      && stored == (if navigated then Some(Record(answers)) else None)
    }

    constructor ()
      ensures Valid()
      ensures currentQuestion == 0 && answers == [] && selectedAnswers == []
      ensures showItems && timer == ShowSeconds && !navigated
    {
      currentQuestion := 0;
      answers := [];
      selectedAnswers := [];
      showItems := true;
      timer := ShowSeconds;
      navigated := false;
      stored := None;
    }

    /** The timer effect, one second later: count down while the pictures are
        shown; once the count is 0, hide them. */
    method Tick()
      requires Valid()
      modifies this`timer, this`showItems
      ensures Valid()
      ensures old(showItems) && old(timer) > 0 ==> timer == old(timer) - 1 && showItems
      ensures !(old(showItems) && old(timer) > 0) ==>
        timer == old(timer) && showItems == (old(showItems) && old(timer) != 0)
    {
      if showItems && timer > 0 {
        timer := timer - 1;
      } else if timer == 0 {
        showItems := false;
      }
    }

    /** The effect of a new task: the pictures are shown again for three seconds with nothing picked. */
    method QuestionChanged()
      requires Valid()
      modifies this`timer, this`showItems, this`selectedAnswers
      ensures Valid() && timer == ShowSeconds && showItems && selectedAnswers == []
    {
      timer := ShowSeconds;
      showItems := true;
      selectedAnswers := [];
    }

    /** `handleAnswerToggle`: the selection stays at most three distinct options. */
    method AnswerToggle(answer: string)
      requires Valid() && !navigated
      modifies this`selectedAnswers
      ensures Valid()
      ensures selectedAnswers == Toggle(old(selectedAnswers), answer)
    {
      if answer in selectedAnswers {
        selectedAnswers := Without(selectedAnswers, answer);
      } else if |selectedAnswers| < MaxPicks {
        selectedAnswers := selectedAnswers + [answer];
      }
    }

    /** `handleNext`: the selection is stored joined; the next task starts, or
        after the last one the graded record is stored. */
    method Next()
      requires Valid() && !navigated
      modifies this
      ensures Valid()
      ensures answers == old(answers) + [Join(old(selectedAnswers))] && selectedAnswers == []
      ensures old(currentQuestion) < |Questions| - 1 ==>
        && currentQuestion == old(currentQuestion) + 1 && !navigated
        && timer == ShowSeconds && showItems
      ensures old(currentQuestion) == |Questions| - 1 ==>
        && navigated && currentQuestion == old(currentQuestion)
        && timer == old(timer) && showItems == old(showItems)
        && stored == Some(Record(answers))
    {
      var newAnswers := answers + [Join(selectedAnswers)];
      answers := newAnswers;
      selectedAnswers := [];
      if currentQuestion < |Questions| - 1 {
        currentQuestion := currentQuestion + 1;
        QuestionChanged();
      } else {
        stored := Some(Record(newAnswers));
        navigated := true;
      }
    }
  }
}
