/**
 * What the rule verdict, the logged match list and the advisory verdict add up
 * to once scored and mapped to an action. The request handler logs the
 * engine's labels joined by "," (the string the scorer splits again); these
 * lemmas follow a request's labels through the scorer and the policy.
 */
module DecisionChain {
  import opened Text
  import opened Patterns
  import opened RuleEngine
  import opened LlmAnalyzer
  import opened Scoring
  import opened Policy

  /**
   * The match list as logged: the labels joined by ",". The string is empty
   * exactly when there are no labels, and splitting it at "," gives the labels back.
   */
  function LoggedMatches(payload: string, userAgent: string, search: Search): (r: string)
    ensures r == "" <==> Labels(payload, userAgent, search) == []
    ensures Labels(payload, userAgent, search) != [] ==> Split(r, ',') == Labels(payload, userAgent, search)
  {
    var labels := Labels(payload, userAgent, search);
    LabelsCommaFree(payload, userAgent, search);
    if labels == [] then ""
    else
      SplitJoin(labels, ',');
      assert |Join(labels, ',')| >= |labels[0]| by { JoinStartsWithFirst(labels, ','); }
      Join(labels, ',')
  }

  lemma JoinStartsWithFirst(parts: seq<string>, sep: char)
    requires |parts| >= 1
    ensures |Join(parts, sep)| >= |parts[0]|
  {
  }

  /** Every label is non-empty and free of commas. */
  lemma LabelsCommaFree(payload: string, userAgent: string, search: Search)
    ensures forall k :: 0 <= k < |Labels(payload, userAgent, search)| ==>
      Labels(payload, userAgent, search)[k] != "" && ',' !in Labels(payload, userAgent, search)[k]
  {
    var labels := Labels(payload, userAgent, search);
    LabelsAreCategoryNames(payload, userAgent, search);
    CategoryNamesCommaFree();
    forall k | 0 <= k < |labels| ensures labels[k] != "" && ',' !in labels[k] {
      assert labels[k] in CategoryNames;
    }
  }

  /** The score of a request from its rule outcome and an advisory verdict. */
  function RuleRisk(payload: string, userAgent: string, search: Search, llm: LlmVerdict): int {
    var labels := Labels(payload, userAgent, search);
    RiskScore(VerdictFor(|labels|), LoggedMatches(payload, userAgent, search), llm)
  }

  /** The category names are non-empty and free of commas. */
  lemma CategoryNamesCommaFree()
    ensures forall k :: 0 <= k < |CategoryNames| ==> CategoryNames[k] != "" && ',' !in CategoryNames[k]
  {
    assert ',' !in SqlInjection && ',' !in Xss && ',' !in DirectoryTraversal
        && ',' !in CommandInjection && ',' !in MaliciousScanner;
  }

  /** Splitting the logged match list again recovers one piece per label. */
  lemma LoggedMatchesCount(payload: string, userAgent: string, search: Search)
    ensures MatchContribution(LoggedMatches(payload, userAgent, search)) == |Labels(payload, userAgent, search)|
  {
    LabelsCommaFree(payload, userAgent, search);
    MatchContributionOfJoin(Labels(payload, userAgent, search));
  }

  /**
   * The score by rule verdict: SAFE scores only the advisory, SUSPICIOUS 2 + 1,
   * MALICIOUS 5 plus one per label; UNSAFE adds 3 to each.
   */
  lemma RuleRiskByVerdict(payload: string, userAgent: string, search: Search, llm: LlmVerdict)
    ensures var n := |Labels(payload, userAgent, search)|;
      RuleRisk(payload, userAgent, search, llm)
        == (if n == 0 then 0 else if n == 1 then 3 else 5 + n) + (if llm == Unsafe then 3 else 0)
  {
    LoggedMatchesCount(payload, userAgent, search);
  }

  /** A MALICIOUS request scores at least 7 and is always deceived (DECEIVE or THROTTLE). */
  lemma MaliciousIsDeceived(payload: string, userAgent: string, search: Search, llm: LlmVerdict)
    requires VerdictFor(|Labels(payload, userAgent, search)|) == Malicious
    ensures RuleRisk(payload, userAgent, search, llm) >= 7
    ensures DecideAction(RuleRisk(payload, userAgent, search, llm)) in {Deceive, Throttle}
  {
    RuleRiskByVerdict(payload, userAgent, search, llm);
  }

  /** A SUSPICIOUS request is monitored, unless the advisory says UNSAFE, which moves it to DECEIVE. */
  lemma SuspiciousOutcome(payload: string, userAgent: string, search: Search, llm: LlmVerdict)
    requires VerdictFor(|Labels(payload, userAgent, search)|) == Suspicious
    ensures DecideAction(RuleRisk(payload, userAgent, search, llm)) == (if llm == Unsafe then Deceive else Monitor)
  {
    RuleRiskByVerdict(payload, userAgent, search, llm);
  }

  /** A SAFE request is allowed, unless an UNSAFE advisory lifts it to MONITOR. */
  lemma SafeOutcome(payload: string, userAgent: string, search: Search, llm: LlmVerdict)
    requires VerdictFor(|Labels(payload, userAgent, search)|) == RuleVerdict.Safe
    ensures DecideAction(RuleRisk(payload, userAgent, search, llm)) == (if llm == Unsafe then Monitor else Allow)
  {
    RuleRiskByVerdict(payload, userAgent, search, llm);
  }

  /** No advisory verdict and no added non-negative contribution can make the action milder. */
  lemma AdvisoryCannotLowerAction(payload: string, userAgent: string, search: Search, llm: LlmVerdict, extra: int)
    requires extra >= 0
    ensures Rank(DecideAction(RuleRisk(payload, userAgent, search, NotRun)))
         <= Rank(DecideAction(RuleRisk(payload, userAgent, search, llm) + extra))
  {
    var labels := Labels(payload, userAgent, search);
    AdvisoryOnlyAdds(VerdictFor(|labels|), LoggedMatches(payload, userAgent, search), llm);
    DecideActionMonotone(RuleRisk(payload, userAgent, search, NotRun), RuleRisk(payload, userAgent, search, llm) + extra);
  }
}
