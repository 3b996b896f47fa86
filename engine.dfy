/**
 * The rule engine (`evaluate_rules`): every pattern of every category is
 * searched for in the payload, one tag is appended per pattern that is
 * found, the user agent is compared against the scanner list, and the verdict
 * is chosen from the number of labels.
 */
module RuleEngine {
  import opened Text
  import opened Patterns

  const SqlInjection: string := "SQL Injection"
  const Xss: string := "XSS"
  const DirectoryTraversal: string := "Directory Traversal"
  const CommandInjection: string := "Command Injection"
  const MaliciousScanner: string := "Malicious Scanner"

  /** The five labels, in the order in which the engine's loops run. */
  const CategoryNames: seq<string> :=
    [SqlInjection, Xss, DirectoryTraversal, CommandInjection, MaliciousScanner]

  datatype RuleVerdict = Safe | Suspicious | Malicious

  /** The position of a tag in `CategoryNames` (5 for any other string). */
  function CategoryIndex(tag: string): nat {
    if tag == SqlInjection then 0
    else if tag == Xss then 1
    else if tag == DirectoryTraversal then 2
    else if tag == CommandInjection then 3
    else if tag == MaliciousScanner then 4
    else 5
  }

  /** The labels one category loop appends: `tag` once for each pattern the search finds. */
  function CategoryLabels(patterns: seq<string>, text: string, tag: string, search: Search): (r: seq<string>)
    ensures |r| <= |patterns|
    ensures forall k :: 0 <= k < |r| ==> r[k] == tag
    decreases |patterns|
  {
    if |patterns| == 0 then []
    else
      CategoryLabels(patterns[..|patterns| - 1], text, tag, search)
      + (if search(patterns[|patterns| - 1], text) then [tag] else [])
  }

  /** The patterns of a table that the search finds in `text`, in table order. */
  function MatchingPatterns(patterns: seq<string>, text: string, search: Search): (r: seq<string>)
    ensures forall p :: p in r <==> p in patterns && search(p, text)
    decreases |patterns|
  {
    if |patterns| == 0 then []
    else
      var last := patterns[|patterns| - 1];
      assert patterns == patterns[..|patterns| - 1] + [last];
      MatchingPatterns(patterns[..|patterns| - 1], text, search)
      + (if search(last, text) then [last] else [])
  }

  /** The scanner test: a case-insensitive substring test of the agent string in the user agent. */
  predicate AgentMatches(agent: string, userAgent: string): (b: bool)
    ensures b <==> exists i :: OccursAt(Lower(userAgent), Lower(agent), i)
  {
    ContainsIffOccurs(Lower(userAgent), Lower(agent));
    Contains(Lower(userAgent), Lower(agent))
  }

  /** The labels the scanner loop appends: one per agent string found in the user agent. */
  function ScannerLabels(agents: seq<string>, userAgent: string): (r: seq<string>)
    ensures |r| <= |agents|
    ensures forall k :: 0 <= k < |r| ==> r[k] == MaliciousScanner
    decreases |agents|
  {
    if |agents| == 0 then []
    else
      ScannerLabels(agents[..|agents| - 1], userAgent)
      + (if AgentMatches(agents[|agents| - 1], userAgent) then [MaliciousScanner] else [])
  }

  /** The agent strings found in the user agent, in list order. */
  function MatchingAgents(agents: seq<string>, userAgent: string): (r: seq<string>)
    ensures forall a :: a in r <==> a in agents && AgentMatches(a, userAgent)
    decreases |agents|
  {
    if |agents| == 0 then []
    else
      var last := agents[|agents| - 1];
      assert agents == agents[..|agents| - 1] + [last];
      MatchingAgents(agents[..|agents| - 1], userAgent)
      + (if AgentMatches(last, userAgent) then [last] else [])
  }

  /** The complete `matches` list: the five loops' contributions, in loop order. */
  function Labels(payload: string, userAgent: string, search: Search): (r: seq<string>)
    ensures |r| <= |SqliPatterns| + |XssPatterns| + |DirTraversalPatterns| + |CmdInjectionPatterns| + |ScannerUserAgents|
    ensures forall k :: 0 <= k < |r| ==> CategoryIndex(r[k]) < 5
  {
    CategoryLabels(SqliPatterns, payload, SqlInjection, search)
    + CategoryLabels(XssPatterns, payload, Xss, search)
    + CategoryLabels(DirTraversalPatterns, payload, DirectoryTraversal, search)
    + CategoryLabels(CmdInjectionPatterns, payload, CommandInjection, search)
    + ScannerLabels(ScannerUserAgents, userAgent)
  }

  /** The verdict chosen from the length of the `matches` list. */
  function VerdictFor(count: nat): (v: RuleVerdict)
    ensures v == Safe <==> count == 0
    ensures v == Suspicious <==> count == 1
    ensures v == Malicious <==> count >= 2
  {
    if count == 0 then Safe else if count == 1 then Suspicious else Malicious
  }

  /** One category loop: appends `tag` to `matches` once for each pattern found. */
  method AppendMatches(matches: seq<string>, patterns: seq<string>, text: string, tag: string, search: Search)
    returns (out: seq<string>)
    ensures out == matches + CategoryLabels(patterns, text, tag, search)
  {
    out := matches;
    var k := 0;
    while k < |patterns|
      invariant 0 <= k <= |patterns|
      invariant out == matches + CategoryLabels(patterns[..k], text, tag, search)
    {
      assert patterns[..k + 1][..k] == patterns[..k];
      if search(patterns[k], text) {
        out := out + [tag];
      }
      k := k + 1;
    }
    assert patterns[..k] == patterns;
  }

  /** The scanner loop: appends one scanner tag for each agent string found in the user agent. */
  method AppendScannerMatches(matches: seq<string>, agents: seq<string>, userAgent: string)
    returns (out: seq<string>)
    ensures out == matches + ScannerLabels(agents, userAgent)
  {
    out := matches;
    var k := 0;
    while k < |agents|
      invariant 0 <= k <= |agents|
      invariant out == matches + ScannerLabels(agents[..k], userAgent)
    {
      assert agents[..k + 1][..k] == agents[..k];
      if AgentMatches(agents[k], userAgent) {
        out := out + [MaliciousScanner];
      }
      k := k + 1;
    }
    assert agents[..k] == agents;
  }

  /**
   * `evaluate_rules(payload, user_agent)`: the verdict and the list of labels.
   * The list holds one tag per matching pattern, so a category may repeat.
   */
  method EvaluateRules(payload: string, userAgent: string, search: Search)
    returns (verdict: RuleVerdict, matches: seq<string>)
    ensures matches == Labels(payload, userAgent, search)
    ensures verdict == VerdictFor(|matches|)
    ensures verdict == Safe <==> matches == []
    ensures verdict == Suspicious <==> |matches| == 1
    ensures verdict == Malicious <==> |matches| >= 2
  {
    matches := [];
    matches := AppendMatches(matches, SqliPatterns, payload, SqlInjection, search);
    matches := AppendMatches(matches, XssPatterns, payload, Xss, search);
    matches := AppendMatches(matches, DirTraversalPatterns, payload, DirectoryTraversal, search);
    matches := AppendMatches(matches, CmdInjectionPatterns, payload, CommandInjection, search);

    matches := AppendScannerMatches(matches, ScannerUserAgents, userAgent);

    if |matches| == 0 {
      return Safe, [];
    }
    if |matches| == 1 {
      return Suspicious, matches;
    }
    return Malicious, matches;
  }

  /** A category contributes exactly one tag per pattern that the search finds. */
  lemma {:induction false} CategoryLabelsPerMatch(patterns: seq<string>, text: string, tag: string, search: Search)
    ensures CategoryLabels(patterns, text, tag, search)
         == seq(|MatchingPatterns(patterns, text, search)|, _ => tag)
    decreases |patterns|
  {
    if |patterns| > 0 {
      CategoryLabelsPerMatch(patterns[..|patterns| - 1], text, tag, search);
    }
  }

  /** The scanner loop contributes exactly one tag per agent string found. */
  lemma {:induction false} ScannerLabelsPerMatch(agents: seq<string>, userAgent: string)
    ensures ScannerLabels(agents, userAgent)
         == seq(|MatchingAgents(agents, userAgent)|, _ => MaliciousScanner)
    decreases |agents|
  {
    if |agents| > 0 {
      ScannerLabelsPerMatch(agents[..|agents| - 1], userAgent);
    }
  }

  /** One pattern found gives at least one tag. */
  lemma {:induction false} OneHit(patterns: seq<string>, text: string, tag: string, search: Search, i: int)
    requires 0 <= i < |patterns| && search(patterns[i], text)
    ensures |CategoryLabels(patterns, text, tag, search)| >= 1
    decreases |patterns|
  {
    if i < |patterns| - 1 {
      OneHit(patterns[..|patterns| - 1], text, tag, search, i);
    }
  }

  /** Two different patterns of one category found give at least two labels: there is no `break`. */
  lemma {:induction false} TwoHits(patterns: seq<string>, text: string, tag: string, search: Search, i: int, j: int)
    requires 0 <= i < j < |patterns|
    requires search(patterns[i], text) && search(patterns[j], text)
    ensures |CategoryLabels(patterns, text, tag, search)| >= 2
    decreases |patterns|
  {
    var init := patterns[..|patterns| - 1];
    if j == |patterns| - 1 {
      OneHit(init, text, tag, search, i);
    } else {
      TwoHits(init, text, tag, search, i, j);
    }
  }

  /**
   * Two SQL injection patterns found in one payload (`admin' OR 1=1 --` hits
   * both the `or 1=1` and the comment pattern) make the request MALICIOUS
   * although only one category is involved.
   */
  lemma TwoSqliHitsAreMalicious(payload: string, userAgent: string, search: Search, i: int, j: int)
    requires 0 <= i < j < |SqliPatterns|
    requires search(SqliPatterns[i], payload) && search(SqliPatterns[j], payload)
    ensures |Labels(payload, userAgent, search)| >= 2
    ensures VerdictFor(|Labels(payload, userAgent, search)|) == Malicious
  {
    TwoHits(SqliPatterns, payload, SqlInjection, search, i, j);
  }

  /** Every tag is one of the five category names. */
  lemma LabelsAreCategoryNames(payload: string, userAgent: string, search: Search)
    ensures forall k :: 0 <= k < |Labels(payload, userAgent, search)| ==>
      Labels(payload, userAgent, search)[k] in CategoryNames
  {
    var ls := Labels(payload, userAgent, search);
    forall k | 0 <= k < |ls| ensures ls[k] in CategoryNames {
      assert CategoryIndex(ls[k]) < 5 by { LabelIndexBound(payload, userAgent, search, k); }
    }
  }

  lemma LabelIndexBound(payload: string, userAgent: string, search: Search, k: int)
    requires 0 <= k < |Labels(payload, userAgent, search)|
    ensures CategoryIndex(Labels(payload, userAgent, search)[k]) < 5
  {
  }

  /** Labels whose category indices never decrease. */
  ghost predicate InCategoryOrder(s: seq<string>) {
    forall i, j :: 0 <= i < j < |s| ==> CategoryIndex(s[i]) <= CategoryIndex(s[j])
  }

  lemma ConcatInOrder(a: seq<string>, b: seq<string>, bound: nat)
    requires InCategoryOrder(a) && InCategoryOrder(b)
    requires forall k :: 0 <= k < |a| ==> CategoryIndex(a[k]) <= bound
    requires forall k :: 0 <= k < |b| ==> CategoryIndex(b[k]) >= bound
    ensures InCategoryOrder(a + b)
  {
    var s := a + b;
    forall i, j | 0 <= i < j < |s| ensures CategoryIndex(s[i]) <= CategoryIndex(s[j]) {
      if j < |a| {
        assert s[i] == a[i] && s[j] == a[j];
      } else if i >= |a| {
        assert s[i] == b[i - |a|] && s[j] == b[j - |a|];
      } else {
        assert s[i] == a[i] && s[j] == b[j - |a|];
      }
    }
  }

  /**
   * The labels appear in category order: all SQL Injection entries, then XSS,
   * Directory Traversal, Command Injection and Malicious Scanner.
   */
  lemma LabelsInCategoryOrder(payload: string, userAgent: string, search: Search)
    ensures InCategoryOrder(Labels(payload, userAgent, search))
  {
    var a := CategoryLabels(SqliPatterns, payload, SqlInjection, search);
    var b := CategoryLabels(XssPatterns, payload, Xss, search);
    var c := CategoryLabels(DirTraversalPatterns, payload, DirectoryTraversal, search);
    var d := CategoryLabels(CmdInjectionPatterns, payload, CommandInjection, search);
    var e := ScannerLabels(ScannerUserAgents, userAgent);
    ConcatInOrder(a, b, 1);
    ConcatInOrder(a + b, c, 2);
    ConcatInOrder(a + b + c, d, 3);
    ConcatInOrder(a + b + c + d, e, 4);
  }

  /** The pattern tables hold 4, 3, 2 and 2 patterns and the scanner list 5 agent strings. */
  lemma PatternTableSizes()
    ensures |SqliPatterns| == 4 && |XssPatterns| == 3
    ensures |DirTraversalPatterns| == 2 && |CmdInjectionPatterns| == 2
    ensures |ScannerUserAgents| == 5
  {
  }

  /**
   * The scanner strings are already lower case, so `agent.lower()` changes
   * none of them and the test is a substring test in the lower-cased user agent.
   */
  lemma ScannerAgentsLowerCase(userAgent: string)
    ensures forall k :: 0 <= k < |ScannerUserAgents| ==> Lower(ScannerUserAgents[k]) == ScannerUserAgents[k]
    ensures forall k :: 0 <= k < |ScannerUserAgents| ==>
      (AgentMatches(ScannerUserAgents[k], userAgent) <==> Contains(Lower(userAgent), ScannerUserAgents[k]))
  {
  }

  /** The scanner test ignores case in the user agent. */
  lemma {:induction false} ScannerIgnoresCase(agents: seq<string>, ua1: string, ua2: string)
    requires Lower(ua1) == Lower(ua2)
    ensures ScannerLabels(agents, ua1) == ScannerLabels(agents, ua2)
    decreases |agents|
  {
    if |agents| > 0 {
      ScannerIgnoresCase(agents[..|agents| - 1], ua1, ua2);
    }
  }
}
