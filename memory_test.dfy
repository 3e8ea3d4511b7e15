/** src/pages/MemoryTest.tsx: four working-memory tasks (three ordered
    sequences, one free recall) shown for a few seconds and then typed back
    into input boxes; the scoring function, a risk classifier with three factors, and
    the session with its memorize/recall phases. */
module MemoryTest {
  import opened Json
  import opened Scoring
  import opened Text
  import Results

  datatype Kind = Sequence | Recall

  /** A task: its kind, the items shown, the expected answer when it differs
      from the items (the reverse-order task), its difficulty and its display time. */
  datatype Question = Question(kind: Kind, content: seq<string>, correctAnswer: Option<seq<string>>,
    difficulty: Difficulty, duration: nat)

  const Questions: seq<Question> := [
    Question(Sequence, ["3", "7", "2", "9", "4"], None, Easy, 5),
    Question(Sequence, ["K", "L", "B", "R", "F", "Z"], None, Medium, 6),
    Question(Sequence, ["5", "9", "3", "1", "6"], Some(["6", "1", "3", "9", "5"]), Medium, 6),
    Question(Recall, ["house", "tree", "car", "dog", "book", "chair", "pen"], None, Hard, 8)]

  /** `question.correctAnswer || question.content` */
  function Expected(q: Question): (e: seq<string>)
    ensures q.correctAnswer.None? ==> e == q.content
  {
    if q.correctAnswer.Some? then q.correctAnswer.value else q.content
  }

  /** One entry of the `userInputs` array. Writing past the end of a JavaScript
      array leaves holes; spreading the array (`[...userInputs]`) turns each
      hole into an explicit `undefined`. `filter` skips holes but calls its
      callback on `undefined`, where `a.trim()` throws a TypeError. */
  datatype Slot = Hole | Undefined | Text(s: string)

  /** What indexing the array at a slot yields. */
  function Read(x: Slot): Option<string>
  {
    if x.Text? then Some(x.s) else None
  }

  /** `[...userInputs]`: every hole becomes `undefined`. */
  function Spread(u: seq<Slot>): (r: seq<Slot>)
    ensures |r| == |u|
    ensures forall j :: 0 <= j < |u| ==> Read(r[j]) == Read(u[j]) && r[j] != Hole
  {
    seq(|u|, j requires 0 <= j < |u| => if u[j] == Hole then Undefined else u[j])
  }

  /** `newInputs[index] = value` on a spread copy: past the end the array grows, with holes in between. */
  function WriteAt(u: seq<Slot>, index: nat, value: string): (r: seq<Slot>)
    ensures |r| == if index < |u| then |u| else index + 1
    ensures r[index] == Text(value)
    ensures forall j :: 0 <= j < |u| && j != index ==> Read(r[j]) == Read(u[j]) && r[j] != Hole
    ensures forall j :: |u| <= j < index ==> r[j] == Hole
  {
    var c := Spread(u);
    if index < |c| then c[index := Text(value)]
    else c + seq(index - |c|, _ => Hole) + [Text(value)]
  }

  /** Whether the last entry is a non-blank string: `userInputs[userInputs.length - 1]?.trim()`. */
  predicate LastIsFilled(u: seq<Slot>)
  {
    |u| > 0 && u[|u| - 1].Text? && Trim(u[|u| - 1].s) != ""
  }

  /** `handleAddAnswer`: a new empty entry only when there is none yet or the last one is filled in. */
  function AddAnswerTo(u: seq<Slot>): (r: seq<Slot>)
    ensures |u| == 0 || LastIsFilled(u) ==>
      |r| == |u| + 1 && r[|u|] == Text("") && forall j :: 0 <= j < |u| ==> Read(r[j]) == Read(u[j])
    ensures !(|u| == 0 || LastIsFilled(u)) ==> r == u
  {
    if |u| == 0 || LastIsFilled(u) then Spread(u) + [Text("")] else u
  }

  /** Pressing "Add Another Word" again without typing adds nothing more. */
  lemma AddAnswerIdempotent(u: seq<Slot>)
    ensures AddAnswerTo(AddAnswerTo(u)) == AddAnswerTo(u)
  {
    var r := AddAnswerTo(u);
    assert !LastIsFilled(r) by {
      if |u| == 0 || LastIsFilled(u) {
        assert r[|r| - 1] == Text("");
        assert Trim("") == "";
      }
    }
  }

  /** The Check button is disabled for no entries, or a single empty one. */
  predicate CheckEnabled(u: seq<Slot>)
  {
    !(|u| == 0 || (|u| == 1 && !(u[0].Text? && u[0].s != "")))
  }

  /** `answers.filter(a => a.trim() !== "")`: None when the filter reaches an
      `undefined` entry and throws. */
  function Clean(answers: seq<Slot>): (r: Option<seq<string>>)
    ensures r.Some? ==> |r.value| <= |answers|
    ensures r.Some? ==> forall k :: 0 <= k < |r.value| ==> Trim(r.value[k]) != ""
    ensures r.None? <==> Undefined in answers
  {
    if answers == [] then Some([])
    else
      var rest := Clean(answers[1..]);
      match answers[0]
      case Hole => rest
      case Undefined => None
      case Text(s) =>
        if rest.None? then None
        else if Trim(s) != "" then Some([s] + rest.value)
        else rest
  }

  /** Clean over a concatenation is the two cleaned parts joined. */
  lemma {:induction false} CleanAppend(a: seq<Slot>, c: seq<Slot>)
    ensures Clean(a + c) == if Clean(a).None? || Clean(c).None? then None else Some(Clean(a).value + Clean(c).value)
  {
    if a == [] {
      assert a + c == c;
      if Clean(c).Some? {
        assert [] + Clean(c).value == Clean(c).value;
      }
    } else {
      assert (a + c)[0] == a[0];
      assert (a + c)[1..] == a[1..] + c;
      CleanAppend(a[1..], c);
      var x, y := Clean(a[1..]), Clean(c);
      if a[0].Text? && Trim(a[0].s) != "" && x.Some? && y.Some? {
        assert [a[0].s] + (x.value + y.value) == ([a[0].s] + x.value) + y.value;
      }
    }
  }

  /** Number of positions below n where the entered item, lower-cased and
      trimmed, equals the expected item lower-cased. */
  function SequenceMatches(clean: seq<string>, expected: seq<string>, n: nat): (m: nat)
    requires n <= |clean| && n <= |expected|
    ensures m <= n
  {
    if n == 0 then 0
    else SequenceMatches(clean, expected, n - 1) + (if Trim(Lower(clean[n - 1])) == Lower(expected[n - 1]) then 1 else 0)
  }

  /** `question.content.map(item => item.toLowerCase())` */
  function LowerAll(xs: seq<string>): (r: seq<string>)
    ensures |r| == |xs| && forall k :: 0 <= k < |xs| ==> r[k] == Lower(xs[k])
  {
    seq(|xs|, k requires 0 <= k < |xs| => Lower(xs[k]))
  }

  /** Number of the first n answers that, lower-cased and trimmed, are among the
      lower-cased items; an item named twice counts twice. */
  function RecallMatches(clean: seq<string>, items: seq<string>, n: nat): (m: nat)
    requires n <= |clean|
    ensures m <= n
  {
    if n == 0 then 0
    else RecallMatches(clean, items, n - 1) + (if Trim(Lower(clean[n - 1])) in items then 1 else 0)
  }

  function Min(a: nat, b: nat): nat
  {
    if a <= b then a else b
  }

  /** The scoring outcome: a verdict, or the TypeError thrown on an `undefined` entry. */
  datatype Outcome = TypeError | Graded(pass: bool)

  /** `calculateScore`: a sequence passes with at least 60% positional matches,
      a recall with at least half the items named. */
  function Score(q: Question, answers: seq<Slot>): (o: Outcome)
    ensures o.TypeError? <==> Undefined in answers
  {
    var clean := Clean(answers);
    if clean.None? then TypeError
    else if q.kind == Sequence then
      var e := Expected(q);
      Graded((SequenceMatches(clean.value, e, Min(|e|, |clean.value|)) as real) >= (|e| as real) * 0.6)
    else
      Graded((RecallMatches(clean.value, LowerAll(q.content), |clean.value|) as real) >= (|q.content| as real) * 0.5)
  }

  /** The positional counting loop of `calculateScore`. */
  method CountSequence(clean: seq<string>, correctAnswers: seq<string>) returns (score: nat)
    ensures score == SequenceMatches(clean, correctAnswers, Min(|correctAnswers|, |clean|))
    ensures score <= |correctAnswers| && score <= |clean|
  {
    score := 0;
    var minLength := Min(|correctAnswers|, |clean|);
    var i := 0;
    while i < minLength
      invariant i <= minLength
      invariant score == SequenceMatches(clean, correctAnswers, i)
    {
      if Trim(Lower(clean[i])) == Lower(correctAnswers[i]) {
        score := score + 1;
      }
      i := i + 1;
    }
  }

  /** The `for (const answer of cleanAnswers)` loop of `calculateScore`. */
  method CountRecall(clean: seq<string>, correctContent: seq<string>) returns (correctCount: nat)
    ensures correctCount == RecallMatches(clean, correctContent, |clean|)
    ensures correctCount <= |clean|
  {
    correctCount := 0;
    var i := 0;
    while i < |clean|
      invariant i <= |clean|
      invariant correctCount == RecallMatches(clean, correctContent, i)
    {
      if Trim(Lower(clean[i])) in correctContent {
        correctCount := correctCount + 1;
      }
      i := i + 1;
    }
  }

  /** `calculateScore`, with the filter's TypeError made explicit. */
  method CalculateScore(question: Question, answers: seq<Slot>) returns (o: Outcome)
    ensures o == Score(question, answers)
  {
    var cleanAnswers := Clean(answers);
    if cleanAnswers.None? {
      return TypeError;
    }
    if question.kind == Sequence {
      var correctAnswers := Expected(question);
      var score := CountSequence(cleanAnswers.value, correctAnswers);
      o := Graded((score as real) >= (|correctAnswers| as real) * 0.6);
    } else {
      var correctContent := LowerAll(question.content);
      var correctCount := CountRecall(cleanAnswers.value, correctContent);
      o := Graded((correctCount as real) >= (|question.content| as real) * 0.5);
    }
  }

  /** Blank entries are dropped before scoring, wherever they stand, so the
      entries after them move up one position. */
  lemma BlankEntryIgnored(q: Question, a: seq<Slot>, b: string, c: seq<Slot>)
    requires Trim(b) == ""
    ensures Score(q, a + [Text(b)] + c) == Score(q, a + c)
  {
    assert [Text(b)][1..] == [];
    assert Clean([Text(b)]) == Some([]);
    CleanAppend(a, [Text(b)]);
    if Clean(a).Some? {
      assert Clean(a).value + [] == Clean(a).value;
    }
    CleanAppend(a + [Text(b)], c);
    CleanAppend(a, c);
  }

  /** The Check button is disabled only on rows that cannot pass: with no
      entry, or a single empty one, a task with something to recall scores a
      fail, or scoring throws on an `undefined` entry. Every task of the bank
      has something to recall. */
  lemma DisabledCheckWithholdsNoPass(q: Question, u: seq<Slot>)
    requires |Expected(q)| > 0 && |q.content| > 0 && !CheckEnabled(u)
    ensures Score(q, u) != Graded(true)
  {
  }

  /** A string with no white space at either end. */
  predicate Tidy(e: string)
  {
    e != [] && !IsSpace(e[0]) && !IsSpace(e[|e| - 1])
  }

  /** Typing a tidy item exactly as written matches it. */
  lemma TidyMatches(e: string)
    requires Tidy(e)
    ensures Trim(Lower(e)) == Lower(e) && Trim(e) != ""
  {
    TrimStartKeeps(e);
    TrimEndKeeps(e);
    LowerTrimCommute(e);
  }

  function Texts(xs: seq<string>): (r: seq<Slot>)
    ensures |r| == |xs| && forall k :: 0 <= k < |xs| ==> r[k] == Text(xs[k])
  {
    seq(|xs|, k requires 0 <= k < |xs| => Text(xs[k]))
  }

  lemma {:induction false} CleanTidy(xs: seq<string>)
    requires forall k :: 0 <= k < |xs| ==> Tidy(xs[k])
    ensures Clean(Texts(xs)) == Some(xs)
  {
    if xs != [] {
      assert Texts(xs)[1..] == Texts(xs[1..]);
      CleanTidy(xs[1..]);
      TidyMatches(xs[0]);
      assert [xs[0]] + xs[1..] == xs;
    }
  }

  lemma {:induction false} SequenceMatchesSelf(xs: seq<string>, n: nat)
    requires n <= |xs| && forall k :: 0 <= k < |xs| ==> Tidy(xs[k])
    ensures SequenceMatches(xs, xs, n) == n
  {
    if n > 0 {
      SequenceMatchesSelf(xs, n - 1);
      TidyMatches(xs[n - 1]);
    }
  }

  /** Typing the expected sequence back, one tidy item per box, passes. */
  lemma ExpectedSequencePasses(q: Question)
    requires q.kind == Sequence && forall k :: 0 <= k < |Expected(q)| ==> Tidy(Expected(q)[k])
    ensures Score(q, Texts(Expected(q))) == Graded(true)
  {
    CleanTidy(Expected(q));
    SequenceMatchesSelf(Expected(q), |Expected(q)|);
  }

  /** The three sequence tasks of the bank are graded against the right lists
      (the reverse-order task against its reversed list, the others against the
      items shown), and typing that list back passes each of them. */
  lemma BankExpectations()
    ensures Questions[2].kind == Sequence && |Expected(Questions[2])| == |Questions[2].content|
    ensures forall k :: 0 <= k < 5 ==> Expected(Questions[2])[k] == Questions[2].content[4 - k]
    ensures Expected(Questions[0]) == Questions[0].content && Expected(Questions[1]) == Questions[1].content
    ensures forall k :: 0 <= k < 3 ==> Score(Questions[k], Texts(Expected(Questions[k]))) == Graded(true)
  {
    forall k | 0 <= k < 3
      ensures Score(Questions[k], Texts(Expected(Questions[k]))) == Graded(true)
    {
      var e := Expected(Questions[k]);
      assert forall j :: 0 <= j < |e| ==> |e[j]| == 1 && !IsSpace(e[j][0]);
      ExpectedSequencePasses(Questions[k]);
    }
  }

  /** The same remembered word typed k times counts k times. */
  lemma {:induction false} RepeatsCount(w: string, items: seq<string>, k: nat)
    requires Tidy(w) && Lower(w) in items
    ensures RecallMatches(seq(k, _ => w), items, k) == k
  {
    if k > 0 {
      RepeatsCount(w, items, k - 1);
      TidyMatches(w);
      var s := seq(k, _ => w);
      assert seq(k - 1, _ => w) == s[..k - 1];
      RecallMatchesPrefix(s, items, k - 1);
    }
  }

  /** RecallMatches over the first n answers depends only on them. */
  lemma {:induction false} RecallMatchesPrefix(clean: seq<string>, items: seq<string>, n: nat)
    requires n <= |clean|
    decreases n
    ensures RecallMatches(clean[..n], items, n) == RecallMatches(clean, items, n)
  {
    if n > 0 {
      RecallMatchesPrefix(clean, items, n - 1);
      assert clean[..n][..n - 1] == clean[..n - 1];
      RecallMatchesPrefix(clean[..n], items, n - 1);
    }
  }

  /** Naming one remembered word four times passes the seven-word recall task. */
  lemma RepeatedWordPassesRecall()
    ensures Score(Questions[3], Texts(["house", "house", "house", "house"])) == Graded(true)
  {
    var ws := ["house", "house", "house", "house"];
    assert ws == seq(4, _ => "house");
    assert Tidy("house");
    assert LowerAll(Questions[3].content)[0] == "house";
    CleanTidy(ws);
    RepeatsCount("house", LowerAll(Questions[3].content), 4);
  }

  /** Typing into the third box of an empty row leaves holes, which the filter
      skips; typing into a second box then spreads the holes into `undefined`,
      and scoring throws. */
  lemma SkippedBoxesThrow(q: Question)
    ensures Score(q, WriteAt([], 2, "a")).Graded?
    ensures Score(q, WriteAt(WriteAt([], 2, "a"), 0, "b")) == TypeError
  {
    var u := WriteAt([], 2, "a");
    assert u == [Hole, Hole, Text("a")];
    assert WriteAt(u, 0, "b")[1] == Undefined;
  }

  const Limits: Thresholds := Thresholds(20.0, 35.0, 50.0)

  /** The three risk factors, in the order the page pushes their messages. */
  datatype Factor = WorkingMemory | SlowerRecall | BasicMemory

  const Factors: seq<Factor> := [WorkingMemory, SlowerRecall, BasicMemory]

  lemma FactorsDistinct()
    ensures Distinct(Factors)
  {
  }

  function Message(f: Factor): string
  {
    match f
    case WorkingMemory => "Difficulty with working memory tasks"
    case SlowerRecall => "Slower processing in memory recall tasks"
    case BasicMemory => "Difficulty with basic memory tasks"
  }

  const TestName: string := "Working Memory"

  /** The level cascade, High first. */
  function Level(factorCount: nat, accuracy: Quotient): RiskLevel
  {
    if factorCount >= 2 || Below(accuracy, 30.0) then High
    else if factorCount >= 1 || Below(accuracy, 50.0) then Moderate
    else Low
  }

  /** The tests behind the three messages, in push order. */
  function Flags(results: seq<TestResult>): seq<bool>
  {
    [Below(Accuracy(results), 50.0), Below(TimeScore(results, Limits), 60.0), CountEasyErrors(results) >= 1]
  }

  /** What `calculateDyslexiaRisk` returns for a result list. */
  function Analyze(results: seq<TestResult>): (a: Analysis<Factor>)
    ensures a.totalQuestions == |results| && a.correctAnswers <= a.totalQuestions
    ensures a.accuracy.den == a.timeScore.den == a.averageTime.den == |results|
    ensures Within(a.accuracy, 100.0) && Within(a.timeScore, 100.0)
  {
    var factors := Keep(Flags(results), Factors);
    var accuracy := Accuracy(results);
    Analysis(accuracy, AverageTime(results), TimeScore(results, Limits), factors, Level(|factors|, accuracy),
      CountCorrect(results), |results|)
  }

  /** `calculateDyslexiaRisk`: each factor message is pushed by its own test, then the level is chosen. */
  method CalculateDyslexiaRisk(results: seq<TestResult>) returns (a: Analysis<Factor>)
    ensures a == Analyze(results)
  {
    var totalQuestions := |results|;
    var correctAnswers := CountCorrect(results);
    var accuracy := Percent(correctAnswers, totalQuestions);
    var averageTime := Quotient(TotalTime(results), totalQuestions);
    var slowQuestions := CountSlow(results, Limits);
    var timeScore := Percent(totalQuestions - slowQuestions, totalQuestions);
    var riskFactors: seq<Factor> := [];
    var riskLevel := Low;
    riskFactors := AddIf(riskFactors, Below(accuracy, 50.0), Factors[0]);
    riskFactors := AddIf(riskFactors, Below(timeScore, 60.0), Factors[1]);
    var easyQuestionErrors := CountEasyErrors(results);
    riskFactors := AddIf(riskFactors, easyQuestionErrors >= 1, Factors[2]);
    Keep3(Below(accuracy, 50.0), Below(timeScore, 60.0), easyQuestionErrors >= 1, Factors);
    if |riskFactors| >= 2 || Below(accuracy, 30.0) {
      riskLevel := High;
    } else if |riskFactors| >= 1 || Below(accuracy, 50.0) {
      riskLevel := Moderate;
    }
    a := Analysis(accuracy, averageTime, timeScore, riskFactors, riskLevel, correctAnswers, totalQuestions);
  }

  /** Each factor message is present exactly when its own rule holds, stated on the counts. */
  lemma FactorRules(results: seq<TestResult>)
    ensures var f := Analyze(results).riskFactors; var n := |results|;
      && (WorkingMemory in f <==> 100 * CountCorrect(results) < 50 * n)
      && (SlowerRecall in f <==> 100 * (n - CountSlow(results, Limits)) < 60 * n)
      && (BasicMemory in f <==> CountEasyErrors(results) >= 1)
  {
    FactorsDistinct();
    KeepHas(Flags(results), Factors, 0);
    KeepHas(Flags(results), Factors, 1);
    KeepHas(Flags(results), Factors, 2);
  }

  /** The level cascade, stated on the counts: High needs two factors or
      accuracy under 30%, Moderate one factor or accuracy under 50%. */
  lemma LevelRules(results: seq<TestResult>)
    ensures var a := Analyze(results); var n := |results|; var c := CountCorrect(results);
      && (a.riskLevel == High <==> |a.riskFactors| >= 2 || 100 * c < 30 * n)
      && (a.riskLevel == Moderate <==> |a.riskFactors| == 1 && 100 * c >= 30 * n)
  {
    LowIffNoFactors(results);
  }

  /** Accuracy under 50% is itself a factor, so the level is Low exactly when
      no factor was pushed. */
  lemma LowIffNoFactors(results: seq<TestResult>)
    ensures Analyze(results).riskLevel == Low <==> Analyze(results).riskFactors == []
  {
    var f := Flags(results);
    assert f == [f[0], f[1], f[2]];
    Keep3(f[0], f[1], f[2], Factors);
  }

  /** Answering one task faster, with the verdict unchanged, never adds a
      factor and never raises the risk level. */
  lemma FasterNeverRaisesRisk(results: seq<TestResult>, i: nat, t: real)
    requires i < |results| && t <= results[i].timeSpent
    ensures var faster := results[i := results[i].(timeSpent := t)];
      && |Analyze(faster).riskFactors| <= |Analyze(results).riskFactors|
      && Rank(Analyze(faster).riskLevel) <= Rank(Analyze(results).riskLevel)
  {
    var faster := results[i := results[i].(timeSpent := t)];
    FasterAnswer(results, i, t, Limits);
    CountTrueMonotone(Flags(faster), Flags(results));
    KeepShape(Flags(faster), Factors);
    KeepShape(Flags(results), Factors);
  }

  function Record(results: seq<TestResult>): Value
  {
    AnalysisRecord(TestName, Analyze(results), Message, results)
  }

  /** The record this page stores is accepted by the results view exactly when
      there was at least one result. */
  lemma RecordAccepted(results: seq<TestResult>)
    ensures Results.Accepts(Record(results)) <==> |results| > 0
  {
    Results.AnalysisRecordAccepted(TestName, Analyze(results), Message, results);
  }

  datatype Phase = Memorize | RecallPhase

  /** The page's state: task position, phase, countdown, typed entries,
      start-time presence, results so far, completion, stored record. */
  class Session {
    var currentQuestionIndex: nat
    var phase: Phase
    var timeLeft: nat
    var userInputs: seq<Slot>
    var started: bool
    var results: seq<TestResult>
    var isTestComplete: bool
    var stored: Option<Value>

    ghost predicate Valid()
      reads this
    {
      && currentQuestionIndex < |Questions|
      && |results| == (if isTestComplete then |Questions| else currentQuestionIndex)
      && (isTestComplete ==> currentQuestionIndex == |Questions| - 1)
      && (forall k :: 0 <= k < |results| ==>
            results[k].questionIndex == k && results[k].difficulty == Questions[k].difficulty)
      && (phase == Memorize ==> userInputs == [])
      && stored == (if isTestComplete then Some(Record(results)) else None)
    }

    constructor ()
      ensures Valid()
      ensures currentQuestionIndex == 0 && phase == Memorize && timeLeft == 0 && userInputs == []
      ensures !started && results == [] && !isTestComplete
    {
      currentQuestionIndex := 0;
      phase := Memorize;
      timeLeft := 0;
      userInputs := [];
      started := false;
      results := [];
      isTestComplete := false;
      stored := None;
    }

    /** Both mount-time effects, run against the first render's state: the
        first starts the memorize phase with the first task's duration, the
        second still sees the countdown at 0 and switches to recall, and its
        phase update is applied last. */
    method Mount()
      requires Valid() && currentQuestionIndex == 0 && phase == Memorize && timeLeft == 0
      modifies this
      ensures Valid() && phase == RecallPhase && started
      ensures timeLeft == Questions[0].duration && userInputs == []
      ensures currentQuestionIndex == 0 && results == old(results) && isTestComplete == old(isTestComplete)
    {
      var firstPhase := phase;
      var firstTimeLeft := timeLeft;
      phase := Memorize;
      userInputs := [];
      timeLeft := Questions[currentQuestionIndex].duration;
      if firstPhase == Memorize && firstTimeLeft == 0 {
        phase := RecallPhase;
        started := true;
      }
    }

    /** The countdown effect: one second off while memorizing, then recall starts the clock. */
    method Tick()
      requires Valid()
      modifies this`timeLeft, this`phase, this`started
      ensures Valid()
      ensures old(phase) == Memorize && old(timeLeft) > 0 ==>
        timeLeft == old(timeLeft) - 1 && phase == Memorize && started == old(started)
      ensures old(phase) == Memorize && old(timeLeft) == 0 ==>
        timeLeft == 0 && phase == RecallPhase && started && userInputs == []
      ensures old(phase) == RecallPhase ==> timeLeft == old(timeLeft) && phase == RecallPhase && started == old(started)
    {
      if phase == Memorize && timeLeft > 0 {
        timeLeft := timeLeft - 1;
      } else if phase == Memorize && timeLeft == 0 {
        phase := RecallPhase;
        started := true;
      }
    }

    /** `handleWordInput`; the boxes are rendered only in the recall phase. */
    method WordInput(index: nat, value: string)
      requires Valid() && phase == RecallPhase
      modifies this`userInputs
      ensures Valid() && userInputs == WriteAt(old(userInputs), index, value)
    {
      userInputs := WriteAt(userInputs, index, value);
    }

    /** `handleAddAnswer`; the button is rendered only in the recall phase. */
    method AddAnswer()
      requires Valid() && phase == RecallPhase
      modifies this`userInputs
      ensures Valid() && userInputs == AddAnswerTo(old(userInputs))
    {
      if |userInputs| == 0 || LastIsFilled(userInputs) {
        userInputs := Spread(userInputs) + [Text("")];
      }
    }

    /** `handleCheck`, given the seconds since recall began. A TypeError from
        scoring ends the handler before any state is updated. */
    method Check(timeSpent: real)
      requires Valid() && !isTestComplete
      modifies this
      ensures Valid()
      ensures !old(started) || Score(Questions[old(currentQuestionIndex)], old(userInputs)).TypeError? ==> unchanged(this)
      ensures old(started) && Score(Questions[old(currentQuestionIndex)], old(userInputs)).Graded? ==>
        var q := Questions[old(currentQuestionIndex)];
        results == old(results) + [TestResult(old(currentQuestionIndex), Score(q, old(userInputs)).pass, timeSpent, q.difficulty)]
      ensures (old(started) && Score(Questions[old(currentQuestionIndex)], old(userInputs)).Graded?
          && old(currentQuestionIndex) < |Questions| - 1) ==>
        && currentQuestionIndex == old(currentQuestionIndex) + 1 && !isTestComplete && started
        && phase == Memorize && userInputs == [] && timeLeft == Questions[old(currentQuestionIndex)].duration
      ensures (old(started) && Score(Questions[old(currentQuestionIndex)], old(userInputs)).Graded?
          && old(currentQuestionIndex) == |Questions| - 1) ==>
        && isTestComplete && currentQuestionIndex == old(currentQuestionIndex) && started
        && phase == old(phase) && timeLeft == old(timeLeft) && userInputs == old(userInputs)
        && stored == Some(Record(results))
    {
      if !started {
        return;
      }
      var question := Questions[currentQuestionIndex];
      var isCorrect := CalculateScore(question, userInputs);
      if isCorrect.TypeError? {
        return;
      }
      Submit(isCorrect.pass, timeSpent);
    }

    /** The rest of `handleCheck` once the answer is graded: the result is
        appended, then the next task starts or the test completes. The next
        task's countdown is set from the one just answered, since the handler
        reads the index it has only scheduled to change. */
    method Submit(isCorrect: bool, timeSpent: real)
      requires Valid() && !isTestComplete
      modifies this
      ensures Valid()
      ensures results == old(results) + [TestResult(old(currentQuestionIndex), isCorrect, timeSpent, Questions[old(currentQuestionIndex)].difficulty)]
      ensures started == old(started)
      ensures old(currentQuestionIndex) < |Questions| - 1 ==>
        && currentQuestionIndex == old(currentQuestionIndex) + 1 && !isTestComplete
        && phase == Memorize && userInputs == [] && timeLeft == Questions[old(currentQuestionIndex)].duration
      ensures old(currentQuestionIndex) == |Questions| - 1 ==>
        && isTestComplete && currentQuestionIndex == old(currentQuestionIndex)
        && phase == old(phase) && timeLeft == old(timeLeft) && userInputs == old(userInputs)
        && stored == Some(Record(results))
    {
      var result := TestResult(currentQuestionIndex, isCorrect, timeSpent, Questions[currentQuestionIndex].difficulty);
      var newResults := results + [result];
      results := newResults;
      if currentQuestionIndex < |Questions| - 1 {
        var staleIndex := currentQuestionIndex;
        currentQuestionIndex := currentQuestionIndex + 1;
        phase := Memorize;
        userInputs := [];
        timeLeft := Questions[staleIndex].duration;
      } else {
        isTestComplete := true;
        var analysis := CalculateDyslexiaRisk(newResults);
        stored := Some(AnalysisRecord(TestName, analysis, Message, newResults));
      }
    }
  }
}
