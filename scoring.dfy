/**
 * The risk scorer (`calculate_risk`): a base contribution from the rule
 * verdict, one point per comma-separated entry of the logged match list, and
 * three points for an UNSAFE advisory verdict.
 */
module Scoring {
  import opened Text
  import opened Patterns
  import opened RuleEngine
  import opened LlmAnalyzer

  /** The rule-based contribution. */
  function BaseContribution(verdict: RuleVerdict): (r: nat)
    ensures r in {0, 2, 5}
    ensures r == 0 <==> verdict == RuleVerdict.Safe
    ensures r == 5 <==> verdict == Malicious
  {
    match verdict
    case Suspicious => 2
    case Malicious => 5
    case Safe => 0
  }

  /** The match-list contribution: 0 for an empty string, else the number of pieces of `split(",")`. */
  function MatchContribution(ruleMatches: string): (r: nat)
    ensures r == 0 <==> ruleMatches == ""
  {
    if ruleMatches == "" then 0 else |Split(ruleMatches, ',')|
  }

  /** The advisory contribution: only UNSAFE counts, and it only adds. */
  function AdvisoryContribution(verdict: LlmVerdict): (r: nat)
    ensures r <= 3
    ensures r > 0 <==> verdict == Unsafe
  {
    if verdict == Unsafe then 3 else 0
  }

  /** The score `calculate_risk` computes, as the sum of its three independent contributions. */
  function RiskScore(ruleVerdict: RuleVerdict, ruleMatches: string, llmVerdict: LlmVerdict): (r: int)
    ensures r >= 0
    ensures ruleVerdict == Malicious ==> r >= 5
    ensures r == 0 <==> ruleVerdict == RuleVerdict.Safe && ruleMatches == "" && llmVerdict != Unsafe
  {
    BaseContribution(ruleVerdict) + MatchContribution(ruleMatches) + AdvisoryContribution(llmVerdict)
  }

  /** `calculate_risk(rule_verdict, rule_matches, llm_verdict)`, step by step. */
  method CalculateRisk(ruleVerdict: RuleVerdict, ruleMatches: string, llmVerdict: LlmVerdict)
    returns (score: int)
    ensures score == RiskScore(ruleVerdict, ruleMatches, llmVerdict)
    ensures score >= 0
  {
    score := 0;

    if ruleVerdict == Suspicious {
      score := score + 2;
    } else if ruleVerdict == Malicious {
      score := score + 5;
    }

    if ruleMatches != "" {
      score := score + |Split(ruleMatches, ',')|;
    }

    if llmVerdict == Unsafe {
      score := score + 3;
    }
  }

  /** The severity order SAFE < SUSPICIOUS < MALICIOUS. */
  function Severity(verdict: RuleVerdict): nat {
    match verdict
    case Safe => 0
    case Suspicious => 1
    case Malicious => 2
  }

  /** Each contribution's values: the base is 0, 2 or 5; the advisory is 3 for UNSAFE and 0 for everything else. */
  lemma ContributionValues(ruleVerdict: RuleVerdict, ruleMatches: string, llmVerdict: LlmVerdict)
    ensures BaseContribution(ruleVerdict) == (if ruleVerdict == Malicious then 5 else if ruleVerdict == Suspicious then 2 else 0)
    ensures AdvisoryContribution(llmVerdict) == (if llmVerdict == Unsafe then 3 else 0)
    ensures ruleMatches == "" ==> MatchContribution(ruleMatches) == 0
    ensures ruleMatches != "" ==> MatchContribution(ruleMatches) >= 1
  {
  }

  /** The advisory never lowers the score: UNSAFE adds exactly 3, any other verdict adds nothing. */
  lemma AdvisoryOnlyAdds(ruleVerdict: RuleVerdict, ruleMatches: string, llmVerdict: LlmVerdict)
    ensures RiskScore(ruleVerdict, ruleMatches, llmVerdict) >= RiskScore(ruleVerdict, ruleMatches, NotRun)
    ensures RiskScore(ruleVerdict, ruleMatches, llmVerdict)
         == RiskScore(ruleVerdict, ruleMatches, NotRun) + (if llmVerdict == Unsafe then 3 else 0)
  {
  }

  /** The score is monotone in the rule verdict's severity and in the advisory's UNSAFE flag. */
  lemma RiskScoreMonotone(v1: RuleVerdict, v2: RuleVerdict, ruleMatches: string, l1: LlmVerdict, l2: LlmVerdict)
    requires Severity(v1) <= Severity(v2)
    requires l1 == Unsafe ==> l2 == Unsafe
    ensures RiskScore(v1, ruleMatches, l1) <= RiskScore(v2, ruleMatches, l2)
  {
  }

  /** A match list with one more entry scores one more point. */
  lemma MatchContributionAppend(ruleMatches: string, tag: string)
    requires ruleMatches != ""
    requires ',' !in tag
    ensures MatchContribution(ruleMatches + "," + tag) == MatchContribution(ruleMatches) + 1
  {
    SplitAppend(ruleMatches, tag, ',');
  }

  lemma {:induction false} SplitAppend(s: string, t: string, sep: char)
    requires sep !in t
    ensures Split(s + [sep] + t, sep) == Split(s, sep) + [t]
    decreases |s|
  {
    if |s| == 0 {
      assert s + [sep] + t == [sep] + t;
      assert ([sep] + t)[1..] == t;
      SplitFree(t, sep);
    } else {
      assert (s + [sep] + t)[1..] == s[1..] + [sep] + t;
      SplitAppend(s[1..], t, sep);
    }
  }

  /**
   * Round trip with the logger: joining a non-empty list of non-empty,
   * comma-free labels with "," and scoring it counts one point per label.
   */
  lemma MatchContributionOfJoin(labels: seq<string>)
    requires forall k :: 0 <= k < |labels| ==> labels[k] != "" && ',' !in labels[k]
    ensures MatchContribution(Join(labels, ',')) == |labels|
  {
    if |labels| > 0 {
      SplitJoin(labels, ',');
      assert Join(labels, ',') != "" by {
        if |labels| > 1 {
          assert |Join(labels, ',')| >= |labels[0]| + 1;
        }
      }
    }
  }
}
