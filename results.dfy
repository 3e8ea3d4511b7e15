/** src/pages/Results.tsx: which stored record the results view accepts, and how
    it renders a risk level and a per-question time. */
module Results {
  import opened Json
  import opened Scoring

  /** What the view finds under "testResults": nothing (or an empty string),
      text that `JSON.parse` rejects, or a parsed JSON value. */
  datatype Stored = Absent | Unparsable | Parsed(value: Value)

  /** `parsedResults && typeof parsedResults.test === 'string' && typeof parsedResults.accuracy === 'number'`:
      only an object has fields, so every other JSON value fails the test. */
  predicate Accepts(v: Value)
  {
    && v.JObject?
    && "test" in v.fields && v.fields["test"].JString?
    && "accuracy" in v.fields && v.fields["accuracy"].JNumber?
  }

  /** The view's state once its load effect has run. */
  datatype View = View(results: Option<Value>, isLoaded: bool)

  /** The load effect: a parse failure is caught, a record failing the check is
      ignored, and the view is marked loaded in every case. */
  function Load(s: Stored): (v: View)
    ensures v.isLoaded
    ensures v.results.Some? <==> s.Parsed? && Accepts(s.value)
    ensures v.results.Some? ==> s == Parsed(v.results.value)
  {
    match s
    case Parsed(x) => if Accepts(x) then View(Some(x), true) else View(None, true)
    case _ => View(None, true)
  }

  /** The level the view treats a stored string as: the `switch` default covers "Low" and anything unknown. */
  function ShownLevel(riskLevel: string): RiskLevel
  {
    if riskLevel == "High" then High else if riskLevel == "Moderate" then Moderate else Low
  }

  function RiskColor(riskLevel: string): string
  {
    if riskLevel == "High" then "text-red-600 bg-red-100 border-red-300"
    else if riskLevel == "Moderate" then "text-amber-600 bg-amber-100 border-amber-300"
    else "text-green-600 bg-green-100 border-green-300"
  }

  datatype Icon = AlertCircle | Clock | Check

  function RiskIcon(riskLevel: string): Icon
  {
    if riskLevel == "High" then AlertCircle else if riskLevel == "Moderate" then Clock else Check
  }

  /** The three headlines the view can show. */
  datatype Headline = HighIndication | ModerateSigns | LowIndication

  /** `getDyslexiaMessage`: the factor list is passed but does not influence the headline. */
  function DyslexiaMessage(riskLevel: string, riskFactors: seq<string>): Headline
  {
    if riskLevel == "High" then HighIndication
    else if riskLevel == "Moderate" then ModerateSigns
    else LowIndication
  }

  datatype Message = Message(title: string, message: string)

  /** The title and paragraph of each headline. */
  function MessageText(h: Headline): Message
  {
    match h
    case HighIndication =>
      Message("High Indication of Dyslexia",
        "Your test results show several patterns commonly associated with dyslexia. We strongly recommend consulting with a learning specialist or educational psychologist for a comprehensive evaluation.")
    case ModerateSigns =>
      Message("Moderate Signs of Reading Difficulties",
        "Your results suggest some challenges that may be related to dyslexia. Consider discussing these findings with an educational professional who can provide more detailed assessment.")
    case LowIndication =>
      Message("Low Indication of Dyslexia",
        "Your test performance shows good reading comprehension and processing speed. However, if you continue to experience reading difficulties, professional evaluation may still be beneficial.")
  }

  /** The extra recommendation block under "Recommended Next Steps". */
  datatype NextSteps = ImmediateRecommendations | SuggestedActions

  function NextStepsBlock(riskLevel: string): (b: Option<NextSteps>)
    ensures b.Some? <==> riskLevel == "High" || riskLevel == "Moderate"
  {
    if riskLevel == "High" then Some(ImmediateRecommendations)
    else if riskLevel == "Moderate" then Some(SuggestedActions)
    else None
  }

  /** The per-question badge. */
  function PaceBadge(timeSpent: real): (badge: string)
    ensures badge == "Slow" <==> timeSpent > 30.0
    ensures badge != "Slow" ==> badge == "Good pace"
  {
    if timeSpent > 30.0 then "Slow" else "Good pace"
  }

  /** Every string renders exactly as the level the view reads it as, so an
      unknown string looks like "Low" in colour, icon, headline and next steps. */
  lemma RenderingFollowsShownLevel(riskLevel: string, riskFactors: seq<string>)
    ensures var shown := LevelName(ShownLevel(riskLevel));
      && RiskColor(riskLevel) == RiskColor(shown)
      && RiskIcon(riskLevel) == RiskIcon(shown)
      && DyslexiaMessage(riskLevel, riskFactors) == DyslexiaMessage(shown, [])
      && NextStepsBlock(riskLevel) == NextStepsBlock(shown)
  {
  }

  /** A level the classifiers produce is shown as itself, and the three levels
      get three different colours, icons and headlines. */
  lemma LevelsRenderDistinctly(l1: RiskLevel, l2: RiskLevel)
    ensures ShownLevel(LevelName(l1)) == l1
    ensures RiskColor(LevelName(l1)) == RiskColor(LevelName(l2)) ==> l1 == l2
    ensures RiskIcon(LevelName(l1)) == RiskIcon(LevelName(l2)) ==> l1 == l2
    ensures DyslexiaMessage(LevelName(l1), []) == DyslexiaMessage(LevelName(l2), []) ==> l1 == l2
    ensures NextStepsBlock(LevelName(l1)).None? <==> l1 == Low
  {
  }

  /** A record built by AnalysisRecord passes the view's check exactly when
      its accuracy is a number, that is, when it was computed over at least one
      result; otherwise JSON.stringify has written it as null. */
  lemma AnalysisRecordAccepted<F>(test: string, a: Analysis<F>, message: F -> string, rs: seq<TestResult>)
    ensures var v := AnalysisRecord(test, a, message, rs);
      && (Accepts(v) <==> a.accuracy.den > 0)
      && (a.accuracy.den > 0 ==> Load(Parsed(v)).results == Some(v))
  {
  }

  /** The age-group summary record always passes the check, and the view reads
      its level back unchanged. */
  lemma SummaryRecordAccepted(test: string, accuracy: int, level: RiskLevel, correctAnswers: int,
                              details: seq<bool>, difficulty: string)
    ensures var v := SummaryRecord(test, accuracy, level, correctAnswers, details, difficulty);
      && Accepts(v) && Load(Parsed(v)).results == Some(v)
      && ShownLevel(v.fields["riskLevel"].s) == level
  {
  }

  /** A score record has neither `test` nor `accuracy`, so the view never
      accepts it and shows its empty state. */
  lemma ScoreRecordRejected(kind: string, score: nat, answers: seq<string>, recommendation: string)
    ensures var v := ScoreRecord(kind, score, answers, recommendation);
      && !Accepts(v) && Load(Parsed(v)).results == None
  {
  }
}
