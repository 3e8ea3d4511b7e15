/** What every screening page shares: question difficulty, the per-question
    result its submit handler records, the counts and percentages its
    `calculateDyslexiaRisk` derives from a result list, the ordered list of
    risk-factor messages, the Low/Moderate/High level, and the stored record. */
module Scoring {
  import opened Json

  datatype Option<T> = None | Some(value: T)

  datatype Difficulty = Easy | Medium | Hard

  function DifficultyName(d: Difficulty): string
  {
    match d
    case Easy => "easy"
    case Medium => "medium"
    case Hard => "hard"
  }

  /** One answered question: its position, the verdict, the seconds spent, its difficulty. */
  datatype TestResult = TestResult(questionIndex: nat, isCorrect: bool, timeSpent: real, difficulty: Difficulty)

  /** Per-difficulty response-time limits, in seconds. */
  datatype Thresholds = Thresholds(easy: real, medium: real, hard: real)

  function Limit(t: Thresholds, d: Difficulty): real
  {
    match d
    case Easy => t.easy
    case Medium => t.medium
    case Hard => t.hard
  }

  /** A result is slow only when its time strictly exceeds its difficulty's limit. */
  predicate IsSlow(r: TestResult, t: Thresholds)
  {
    r.timeSpent > Limit(t, r.difficulty)
  }

  /** `results.filter(r => r.isCorrect).length` */
  function CountCorrect(rs: seq<TestResult>): (n: nat)
    ensures n <= |rs|
  {
    if rs == [] then 0 else (if rs[0].isCorrect then 1 else 0) + CountCorrect(rs[1..])
  }

  /** `results.filter(r => r.timeSpent > timeThresholds[r.difficulty]).length` */
  function CountSlow(rs: seq<TestResult>, t: Thresholds): (n: nat)
    ensures n <= |rs|
  {
    if rs == [] then 0 else (if IsSlow(rs[0], t) then 1 else 0) + CountSlow(rs[1..], t)
  }

  /** `results.filter(r => r.difficulty === "easy" && !r.isCorrect).length` */
  function CountEasyErrors(rs: seq<TestResult>): (n: nat)
    ensures n <= |rs| - CountCorrect(rs)
  {
    if rs == [] then 0
    else (if rs[0].difficulty == Easy && !rs[0].isCorrect then 1 else 0) + CountEasyErrors(rs[1..])
  }

  /** Every answer right: the correct count is the length. */
  lemma {:induction false} AllCorrect(rs: seq<TestResult>)
    requires forall k :: 0 <= k < |rs| ==> rs[k].isCorrect
    ensures CountCorrect(rs) == |rs| && CountEasyErrors(rs) == 0
  {
    if rs != [] {
      AllCorrect(rs[1..]);
    }
  }

  /** No answer over its limit: the slow count is zero. */
  lemma {:induction false} NoneSlow(rs: seq<TestResult>, t: Thresholds)
    requires forall k :: 0 <= k < |rs| ==> !IsSlow(rs[k], t)
    ensures CountSlow(rs, t) == 0
  {
    if rs != [] {
      NoneSlow(rs[1..], t);
    }
  }

  /** `results.reduce((sum, r) => sum + r.timeSpent, 0)` */
  function TotalTime(rs: seq<TestResult>): real
  {
    if rs == [] then 0.0 else rs[0].timeSpent + TotalTime(rs[1..])
  }

  predicate TimesNonNegative(rs: seq<TestResult>)
  {
    forall k :: 0 <= k < |rs| ==> rs[k].timeSpent >= 0.0
  }

  /** A quotient `num / den`, kept as its two parts. Comparing it with a
      constant multiplies the constant by the denominator; with den == 0 (the
      NaN of an empty result list) every comparison is false, as in
      JavaScript, since the numerator is then 0 as well. */
  datatype Quotient = Quotient(num: real, den: nat)

  /** `q < b` */
  predicate Below(q: Quotient, b: real)
  {
    q.num < b * (q.den as real)
  }

  /** `q > b` */
  predicate Above(q: Quotient, b: real)
  {
    q.num > b * (q.den as real)
  }

  /** A quotient lies in [0, hi]. */
  predicate Within(q: Quotient, hi: real)
  {
    0.0 <= q.num <= hi * (q.den as real)
  }

  /** The JSON number a quotient becomes: NaN and the infinities are written as null. */
  function NumberValue(q: Quotient): (v: Value)
    ensures v.JNumber? <==> q.den > 0
  {
    if q.den == 0 then JNull else JNumber(q.num / (q.den as real))
  }

  /** With a positive denominator the comparisons are those on the real quotient. */
  lemma CompareQuotient(q: Quotient, b: real)
    requires q.den > 0
    ensures Below(q, b) <==> NumberValue(q).n < b
    ensures Above(q, b) <==> NumberValue(q).n > b
  {
    var d := q.den as real;
    var x := q.num / d;
    assert x * d == q.num;
    if x < b {
      assert x * d < b * d;
    } else {
      assert x * d >= b * d;
    }
    if x > b {
      assert x * d > b * d;
    } else {
      assert x * d <= b * d;
    }
  }

  /** `(k / n) * 100` */
  function Percent(k: nat, n: nat): (q: Quotient)
    ensures q.den == n
    ensures k <= n ==> Within(q, 100.0)
    ensures k == n ==> !Below(q, 100.0)
  {
    Quotient((100 * k) as real, n)
  }

  /** Percent is the real quotient the page computes. */
  lemma PercentValue(k: nat, n: nat)
    requires n > 0
    ensures NumberValue(Percent(k, n)) == JNumber((k as real) / (n as real) * 100.0)
  {
    var d := n as real;
    assert (100.0 * (k as real)) / d == (k as real) / d * 100.0;
  }

  /** `(correctAnswers / totalQuestions) * 100` */
  function Accuracy(rs: seq<TestResult>): (q: Quotient)
    ensures q.den == |rs| && Within(q, 100.0)
  {
    Percent(CountCorrect(rs), |rs|)
  }

  /** `((totalQuestions - slowQuestions) / totalQuestions) * 100` */
  function TimeScore(rs: seq<TestResult>, t: Thresholds): (q: Quotient)
    ensures q.den == |rs| && Within(q, 100.0)
  {
    Percent(|rs| - CountSlow(rs, t), |rs|)
  }

  /** `totalTime / totalQuestions` */
  function AverageTime(rs: seq<TestResult>): Quotient
  {
    Quotient(TotalTime(rs), |rs|)
  }

  /** Number of true entries. */
  function CountTrue(flags: seq<bool>): (n: nat)
    ensures n <= |flags|
  {
    if flags == [] then 0 else CountTrue(flags[..|flags| - 1]) + (if flags[|flags| - 1] then 1 else 0)
  }

  /** A list of flags implies another, entry by entry. */
  predicate Implies(f: seq<bool>, g: seq<bool>)
  {
    |f| == |g| && forall k :: 0 <= k < |f| ==> f[k] ==> g[k]
  }

  lemma {:induction false} CountTrueMonotone(f: seq<bool>, g: seq<bool>)
    requires Implies(f, g)
    ensures CountTrue(f) <= CountTrue(g)
  {
    if f != [] {
      CountTrueMonotone(f[..|f| - 1], g[..|g| - 1]);
    }
  }

  /** xs can be obtained from ys by deleting entries. */
  predicate Subsequence<T(==)>(xs: seq<T>, ys: seq<T>)
    decreases |ys|
  {
    if xs == [] then true
    else if ys == [] then false
    else
      (xs[|xs| - 1] == ys[|ys| - 1] && Subsequence(xs[..|xs| - 1], ys[..|ys| - 1]))
      || Subsequence(xs, ys[..|ys| - 1])
  }

  predicate Distinct<T(==)>(s: seq<T>)
  {
    forall i, j :: 0 <= i < j < |s| ==> s[i] != s[j]
  }

  /** `if (flag) list.push(x)` */
  function AddIf<T>(xs: seq<T>, flag: bool, x: T): (r: seq<T>)
    ensures flag ==> r == xs + [x]
    ensures !flag ==> r == xs
  {
    if flag then xs + [x] else xs
  }

  /** The entries whose flag is set, pushed in order. */
  function Keep<T>(flags: seq<bool>, names: seq<T>): seq<T>
    requires |flags| == |names|
  {
    if flags == [] then []
    else
      var m := |flags| - 1;
      AddIf(Keep(flags[..m], names[..m]), flags[m], names[m])
  }

  /** Keep keeps one entry per set flag, each of them one of the names, in the names' order. */
  lemma {:induction false} KeepShape<T>(flags: seq<bool>, names: seq<T>)
    requires |flags| == |names|
    ensures |Keep(flags, names)| == CountTrue(flags)
    ensures Subsequence(Keep(flags, names), names)
    ensures forall x :: x in Keep(flags, names) ==> x in names
  {
    if flags != [] {
      var m := |flags| - 1;
      KeepShape(flags[..m], names[..m]);
      var init := Keep(flags[..m], names[..m]);
      var r := Keep(flags, names);
      assert flags[m] ==> r[..|r| - 1] == init;
    }
  }

  /** With distinct names, a name is kept exactly when its own flag is set. */
  lemma {:induction false} KeepHas<T>(flags: seq<bool>, names: seq<T>, k: nat)
    requires |flags| == |names| && Distinct(names) && k < |names|
    ensures names[k] in Keep(flags, names) <==> flags[k]
  {
    var m := |names| - 1;
    var init := Keep(flags[..m], names[..m]);
    KeepShape(flags[..m], names[..m]);
    if k == m {
      assert names[m] !in names[..m];
      assert names[m] !in init;
    } else {
      KeepHas(flags[..m], names[..m], k);
      assert names[k] != names[m];
    }
  }

  /** Keep over three flags is three pushes in order. */
  lemma Keep3<T>(f0: bool, f1: bool, f2: bool, names: seq<T>)
    requires |names| == 3
    ensures Keep([f0, f1, f2], names) == AddIf(AddIf(AddIf([], f0, names[0]), f1, names[1]), f2, names[2])
  {
    var flags := [f0, f1, f2];
    assert flags[..1][..0] == [] && names[..1][..0] == [];
    assert Keep(flags[..1][..0], names[..1][..0]) == [];
    var k1 := Keep(flags[..1], names[..1]);
    assert k1 == AddIf([], f0, names[0]);
    assert flags[..2][..1] == flags[..1] && names[..2][..1] == names[..1];
    var k2 := Keep(flags[..2], names[..2]);
    assert k2 == AddIf(k1, f1, names[1]);
    assert flags[..2] == flags[..|flags| - 1] && names[..2] == names[..|names| - 1];
  }

  /** Keep over four flags is four pushes in order. */
  lemma Keep4<T>(f0: bool, f1: bool, f2: bool, f3: bool, names: seq<T>)
    requires |names| == 4
    ensures Keep([f0, f1, f2, f3], names) ==
      AddIf(AddIf(AddIf(AddIf([], f0, names[0]), f1, names[1]), f2, names[2]), f3, names[3])
  {
    Keep3(f0, f1, f2, names[..3]);
    assert [f0, f1, f2, f3][..3] == [f0, f1, f2];
  }

  datatype RiskLevel = Low | Moderate | High

  /** The severity order Low < Moderate < High. */
  function Rank(l: RiskLevel): nat
  {
    match l
    case Low => 0
    case Moderate => 1
    case High => 2
  }

  /** The string the pages store for a level. */
  function LevelName(l: RiskLevel): string
  {
    match l
    case Low => "Low"
    case Moderate => "Moderate"
    case High => "High"
  }

  /** What the accuracy-based `calculateDyslexiaRisk` functions return; F is
      the page's set of risk factors, each standing for one message. */
  datatype Analysis<F> = Analysis(
    accuracy: Quotient,
    averageTime: Quotient,
    timeScore: Quotient,
    riskFactors: seq<F>,
    riskLevel: RiskLevel,
    correctAnswers: nat,
    totalQuestions: nat)

  function ResultValue(r: TestResult): Value
  {
    JObject(map[
      "questionIndex" := JNumber(r.questionIndex as real),
      "isCorrect" := JBool(r.isCorrect),
      "timeSpent" := JNumber(r.timeSpent),
      "difficulty" := JString(DifficultyName(r.difficulty))])
  }

  /** `{ test, ...analysis, detailedResults }`, as stored by the accuracy-based
      pages, each risk factor written as its message. */
  function AnalysisRecord<F>(test: string, a: Analysis<F>, message: F -> string, rs: seq<TestResult>): (v: Value)
    ensures v.JObject? && "test" in v.fields && v.fields["test"] == JString(test)
    ensures "accuracy" in v.fields && v.fields["accuracy"] == NumberValue(a.accuracy)
    ensures "riskLevel" in v.fields && v.fields["riskLevel"] == JString(LevelName(a.riskLevel))
  {
    JObject(map[
      "test" := JString(test),
      "accuracy" := NumberValue(a.accuracy),
      "averageTime" := NumberValue(a.averageTime),
      "timeScore" := NumberValue(a.timeScore),
      "riskFactors" := Strings(seq(|a.riskFactors|, k requires 0 <= k < |a.riskFactors| => message(a.riskFactors[k]))),
      "riskLevel" := JString(LevelName(a.riskLevel)),
      "correctAnswers" := JNumber(a.correctAnswers as real),
      "totalQuestions" := JNumber(a.totalQuestions as real),
      "detailedResults" := JArray(seq(|rs|, k requires 0 <= k < |rs| => ResultValue(rs[k])))])
  }

  /** Answering one question faster, with the verdict unchanged, leaves the
      correct and easy-error counts alone and can only lower the slow count and
      the total time. */
  lemma {:induction false} FasterAnswer(rs: seq<TestResult>, i: nat, t: real, lim: Thresholds)
    requires i < |rs| && t <= rs[i].timeSpent
    ensures CountCorrect(rs[i := rs[i].(timeSpent := t)]) == CountCorrect(rs)
    ensures CountEasyErrors(rs[i := rs[i].(timeSpent := t)]) == CountEasyErrors(rs)
    ensures CountSlow(rs[i := rs[i].(timeSpent := t)], lim) <= CountSlow(rs, lim)
    ensures TotalTime(rs[i := rs[i].(timeSpent := t)]) <= TotalTime(rs)
  {
    var rs' := rs[i := rs[i].(timeSpent := t)];
    if i == 0 {
      assert rs'[1..] == rs[1..];
    } else {
      assert rs'[1..] == rs[1..][i - 1 := rs[i].(timeSpent := t)];
      FasterAnswer(rs[1..], i - 1, t, lim);
    }
  }

  /** A sum of non-negative times is non-negative. */
  lemma {:induction false} TotalTimeNonNegative(rs: seq<TestResult>)
    requires TimesNonNegative(rs)
    ensures TotalTime(rs) >= 0.0
  {
    if rs != [] {
      TotalTimeNonNegative(rs[1..]);
    }
  }

  /** `answers.reduce((acc, a, i) => acc + (a === keys[i] ? 1 : 0), 0)` over the first n positions. */
  function Matches(answers: seq<string>, keys: seq<string>, n: nat): (m: nat)
    requires n <= |answers| && n <= |keys|
    ensures m <= n
  {
    if n == 0 then 0 else Matches(answers, keys, n - 1) + (if answers[n - 1] == keys[n - 1] then 1 else 0)
  }

  /** A list matched against itself scores every position. */
  lemma {:induction false} MatchesSelf(keys: seq<string>, n: nat)
    requires n <= |keys|
    ensures Matches(keys, keys, n) == n
  {
    if n > 0 {
      MatchesSelf(keys, n - 1);
    }
  }

  /** The first n answers all match exactly when every one of them scores. */
  lemma {:induction false} MatchesAll(answers: seq<string>, keys: seq<string>, n: nat)
    requires n <= |answers| && n <= |keys|
    ensures Matches(answers, keys, n) == n <==> forall k :: 0 <= k < n ==> answers[k] == keys[k]
  {
    if n > 0 {
      MatchesAll(answers, keys, n - 1);
    }
  }

  /** No answer matches exactly when the count is zero. */
  lemma {:induction false} MatchesNone(answers: seq<string>, keys: seq<string>, n: nat)
    requires n <= |answers| && n <= |keys|
    ensures Matches(answers, keys, n) == 0 <==> forall k :: 0 <= k < n ==> answers[k] != keys[k]
  {
    if n > 0 {
      MatchesNone(answers, keys, n - 1);
    }
  }

  /** The per-question flags `answers[i] === keys[i]` of the first n positions. */
  function MatchFlags(answers: seq<string>, keys: seq<string>, n: nat): (f: seq<bool>)
    requires n <= |answers| && n <= |keys|
    ensures |f| == n && forall k :: 0 <= k < n ==> f[k] == (answers[k] == keys[k])
  {
    seq(n, k requires 0 <= k < n => answers[k] == keys[k])
  }

  /** Counting the set flags gives the match count. */
  lemma {:induction false} MatchFlagsCount(answers: seq<string>, keys: seq<string>, n: nat)
    requires n <= |answers| && n <= |keys|
    ensures CountTrue(MatchFlags(answers, keys, n)) == Matches(answers, keys, n)
  {
    if n > 0 {
      MatchFlagsCount(answers, keys, n - 1);
      assert MatchFlags(answers, keys, n)[..n - 1] == MatchFlags(answers, keys, n - 1);
    }
  }

  /** One entry of the `detailedResults` the age-group pages store: a 1-based
      index, the verdict, no time and a fixed difficulty label. */
  function DetailValue(idx: nat, isCorrect: bool, difficulty: string): Value
  {
    JObject(map[
      "questionIndex" := JNumber((idx + 1) as real),
      "isCorrect" := JBool(isCorrect),
      "timeSpent" := JNumber(0.0),
      "difficulty" := JString(difficulty)])
  }

  /** The record the age-group pages store in the accuracy-based layout, with
      zero times and no risk factors. */
  function SummaryRecord(test: string, accuracy: int, level: RiskLevel, correctAnswers: int,
                         details: seq<bool>, difficulty: string): (v: Value)
    ensures v.JObject? && "test" in v.fields && v.fields["test"] == JString(test)
    ensures "accuracy" in v.fields && v.fields["accuracy"] == JNumber(accuracy as real)
    ensures "riskLevel" in v.fields && v.fields["riskLevel"] == JString(LevelName(level))
  {
    JObject(map[
      "test" := JString(test),
      "accuracy" := JNumber(accuracy as real),
      "averageTime" := JNumber(0.0),
      "timeScore" := JNumber(0.0),
      "riskFactors" := JArray([]),
      "riskLevel" := JString(LevelName(level)),
      "correctAnswers" := JNumber(correctAnswers as real),
      "totalQuestions" := JNumber(|details| as real),
      "detailedResults" := JArray(seq(|details|, k requires 0 <= k < |details| => DetailValue(k, details[k], difficulty)))])
  }

  /** The record the 6-9 reading and sound pages store: a `type` label, the
      raw score, the question count, the answers and a recommendation. */
  function ScoreRecord(kind: string, score: nat, answers: seq<string>, recommendation: string): (v: Value)
    ensures v.JObject? && "test" !in v.fields && "accuracy" !in v.fields
    ensures "score" in v.fields && v.fields["score"] == JNumber(score as real)
  {
    JObject(map[
      "type" := JString(kind),
      "score" := JNumber(score as real),
      "total" := JNumber(|answers| as real),
      "answers" := Strings(answers),
      "recommendations" := JString(recommendation)])
  }

  /** `Math.round`: the nearest integer, halves rounded up. */
  function Round(x: real): int
  {
    (x + 0.5).Floor
  }
}
