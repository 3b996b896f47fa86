# Honeypot gateway: detection-to-decision chain in Dafny

This project models the part of the AI honeypot gateway that turns a request
into a decision. The chain has these parts:

- the **rule engine** (`evaluate_rules`). It scans the payload with four
  regex pattern tables and the user agent with a list of scanner names. It
  appends one label per pattern that matches and buckets the number of labels
  into SAFE, SUSPICIOUS or MALICIOUS.
- the **alternative vector scanner** (`check_payload`). It scans a twelve-entry
  vector table and reports each vector at most once, because its inner loop
  breaks on the first pattern found.
- **LLM answer normalisation** (`analyze_with_llm`). The answer text is
  stripped and upper-cased. It then gives UNSAFE over SAFE over UNKNOWN. A
  non-200 status gives UNKNOWN and an exception gives ERROR.
- the **risk scorer** (`calculate_risk`) and the **decision policy**
  (`decide_action`): additive integer scoring, then four half-open thresholds.
- the **behavioural analyzer**: the login-path test, a windowed count of one
  client's rows in the request log, and the rate and login risk.
- the **deception signature** (`generate_signature`) and the **deception
  cache** (`get_cached_response`, `store_fake_response`). The cache is a
  signature-keyed table with INSERT OR IGNORE, so the first writer of a
  signature wins.

External collaborators are parameters:

- the regex search is a function `search(pattern, text)`, and patterns are kept
  verbatim as identifiers;
- SHA-256 is a function from the raw key to 32 bytes; its hex encoding is
  modelled and proved reversible;
- the HTTP outcome and the measured latency of the LLM call are inputs;
- the request log is a sequence of `(client_ip, timestamp)` rows, or `None`
  when the query fails, and the current time is an input;
- the `fake_responses` table is a `map` inside a class. Its methods update it
  in place. A ghost history of store calls ties the table to the
  first-writer-wins specification.

Facts about the code that the model keeps:

- The verdict counts matching patterns, so `admin' OR 1=1 --` (two SQL
  injection patterns) is MALICIOUS.
- The scorer adds one point per comma-separated piece of the logged match
  string, duplicates included.
- `behavior_risk` uses only the request rate and the login path.
- The request handler (`src/main.py`) calls only the rule engine. It never
  calls the scorer, the policy, the analyzer or the cache. The
  `DecisionChain` lemmas state what these parts add up to when combined.

Files: `text.dfy` (the Python string operations used), `patterns.dfy`,
`engine.dfy`, `vectors.dfy`, `llm_analyzer.dfy`, `scoring.dfy`, `policy.dfy`,
`behavior.dfy`, `signature.dfy`, `cache.dfy`, `decision_chain.dfy`,
`wrappers.dfy`.

## Model

| member | source | states |
|---|---|---|
| RuleEngine.Labels | src/rules/engine.py:5-25 | the match list holds at most one label per pattern and scanner string (16 in all), and every label is one of the five category names |
| RuleEngine.VerdictFor | src/rules/engine.py:27-33 | SAFE iff no labels, SUSPICIOUS iff exactly one, MALICIOUS iff two or more |
| RuleEngine.EvaluateRules | src/rules/engine.py:4-33 | the match list is the five loops' labels in loop order; verdict SAFE iff the list is empty (and then `[]` is returned), SUSPICIOUS iff it has one entry, MALICIOUS iff it has two or more |
| RuleEngine.AppendMatches | src/rules/engine.py:7-21 | one category loop appends its label once for each pattern found, in table order, after the labels already there |
| RuleEngine.AppendScannerMatches | src/rules/engine.py:23-25 | the scanner loop appends "Malicious Scanner" once for each agent string found case-insensitively in the user agent |
| RuleEngine.CategoryLabels | src/rules/engine.py:7-21 | a category contributes at most one label per pattern, and every entry is that category's label |
| RuleEngine.AgentMatches | src/rules/engine.py:24 | the scanner test holds iff the lower-cased agent string occurs at some position of the lower-cased user agent |
| RuleEngine.ScannerLabels | src/rules/engine.py:23-25 | the scanner contributes at most one label per agent string, each "Malicious Scanner" |
| RuleEngine.PatternTableSizes | src/rules/patterns.py:3-32 | the SQL injection, XSS, directory traversal and command injection tables hold 4, 3, 2 and 2 patterns, and the scanner list 5 strings |
| RuleEngine.ScannerAgentsLowerCase | src/rules/patterns.py:26-32 | the scanner strings are already lower case, so the scanner test is a plain substring test in the lower-cased user agent |
| RuleEngine.CategoryLabelsPerMatch | src/rules/engine.py:7-9 | a category's labels are exactly one copy of its label per matching pattern (no break: repeats allowed) |
| RuleEngine.ScannerLabelsPerMatch | src/rules/engine.py:23-25 | the scanner contributes exactly one label per agent string contained in the lower-cased user agent |
| RuleEngine.TwoHits | src/rules/engine.py:7-21 | two different patterns of one category found give at least two labels |
| RuleEngine.TwoSqliHitsAreMalicious | src/rules/engine.py:7-33 | two SQL injection patterns found (as for `admin' OR 1=1 --`) make the verdict MALICIOUS although only one category is involved |
| RuleEngine.LabelsAreCategoryNames | src/rules/engine.py:9-25 | every label is one of the five fixed category names |
| RuleEngine.LabelsInCategoryOrder | src/rules/engine.py:7-25 | labels appear in category order SQL Injection, XSS, Directory Traversal, Command Injection, Malicious Scanner |
| RuleEngine.ScannerIgnoresCase | src/rules/engine.py:24 | user agents equal up to case get the same scanner labels |
| Vectors.CheckPayload | src/rules/vectors.py:61-75 | the nested loop with its break returns exactly the scan result: empty for empty content, otherwise the vectors with a pattern found, in table order |
| Vectors.Detected | src/rules/vectors.py:70-74 | the vector loop reports at most one name per vector |
| Vectors.ScanResult | src/rules/vectors.py:61-75 | what `check_payload` returns: nothing for empty content, and never more names than the table has vectors |
| Vectors.DetectedIff | src/rules/vectors.py:70-74 | a name is reported iff it belongs to a vector one of whose patterns is found |
| Vectors.DetectedIsSubsequence | src/rules/vectors.py:70-74 | the reported names are a subsequence of the table's names |
| Vectors.DetectedDistinct | src/rules/vectors.py:70-74 | with distinct vector names, no name is reported twice |
| Vectors.AttackVectorNamesDistinct | src/rules/vectors.py:3-59 | the twelve vector names of the table are pairwise different |
| Vectors.EmptyContentDetectsNothing | src/rules/vectors.py:66-68 | empty content yields the empty list |
| Vectors.ScanResultIff | src/rules/vectors.py:66-75 | for non-empty content, a table vector is reported iff one of its patterns is found |
| Vectors.ScanResultShape | src/rules/vectors.py:3-75 | the result has no duplicates, follows the table's key order and is no longer than the table |
| Vectors.CredentialStuffingNeverReported | src/rules/vectors.py:34-37 | `credential_stuffing`, with no patterns, is never reported |
| LlmAnalyzer.Classify | src/ai/llm_analyzer.py:45-58 | the verdict is SAFE, UNSAFE or UNKNOWN; UNSAFE whenever the text contains "UNSAFE"; SAFE when it contains "SAFE" but not "UNSAFE"; UNKNOWN only when it does not contain "SAFE" |
| LlmAnalyzer.Normalise | src/ai/llm_analyzer.py:43-58 | the verdict of an answer is the priority rule UNSAFE over SAFE over UNKNOWN applied to the stripped, upper-cased answer |
| LlmAnalyzer.AnalyzeWithLlm | src/ai/llm_analyzer.py:24-62 | the latency is returned unchanged; the verdict is one of SAFE, UNSAFE, UNKNOWN, ERROR; an exception gives ERROR; a non-200 status gives UNKNOWN |
| LlmAnalyzer.AnalyzeOutcomes | src/ai/llm_analyzer.py:40-62 | for a 200 response a text answer follows the priority rule, a missing answer is UNKNOWN, a body that is not an object or a non-string answer is ERROR |
| LlmAnalyzer.UnsafeContainsSafe | src/ai/llm_analyzer.py:45-50 | a text containing "UNSAFE" also contains "SAFE", which is why UNSAFE must be tested first |
| LlmAnalyzer.ClassifyIsPriorityRule | src/ai/llm_analyzer.py:45-58 | the classification as written equals UNSAFE-over-SAFE-over-UNKNOWN on every text, so the strict equality fallbacks never decide anything |
| LlmAnalyzer.NormaliseCases | src/ai/llm_analyzer.py:43-58 | after strip and upper: contains "UNSAFE" gives UNSAFE; "SAFE" without "UNSAFE" gives SAFE; neither gives UNKNOWN |
| LlmAnalyzer.NormaliseIgnoresCase | src/ai/llm_analyzer.py:43 | answers equal up to case get the same verdict |
| LlmAnalyzer.NormaliseOfUpper | src/ai/llm_analyzer.py:43 | upper-casing an answer beforehand changes nothing |
| Scoring.BaseContribution | src/decision/scoring.py:4-8 | the rule contribution is 0, 2 or 5; 0 exactly for SAFE and 5 exactly for MALICIOUS |
| Scoring.MatchContribution | src/decision/scoring.py:10-12 | the match contribution is 0 exactly when the match string is empty |
| Scoring.AdvisoryContribution | src/decision/scoring.py:14-16 | the advisory adds at most 3, and something exactly when the verdict is UNSAFE |
| Scoring.RiskScore | src/decision/scoring.py:1-18 | the score is non-negative, at least 5 for a MALICIOUS verdict, and 0 exactly for SAFE with no matches and no UNSAFE advisory |
| Scoring.CalculateRisk | src/decision/scoring.py:1-18 | the step-by-step score equals base + match pieces + advisory and is non-negative |
| Scoring.ContributionValues | src/decision/scoring.py:5-16 | base 5 for MALICIOUS, 2 for SUSPICIOUS, 0 otherwise; advisory 3 for UNSAFE, 0 otherwise; an empty match string adds 0, a non-empty one at least 1 |
| Scoring.AdvisoryOnlyAdds | src/decision/scoring.py:14-16 | the advisory adds exactly 3 for UNSAFE and nothing otherwise, so it never lowers the score |
| Scoring.RiskScoreMonotone | src/decision/scoring.py:2-18 | the score is monotone in rule-verdict severity and in the UNSAFE flag |
| Scoring.MatchContributionAppend | src/decision/scoring.py:11-12 | appending one more comma-free entry to a non-empty match string adds one point |
| Scoring.MatchContributionOfJoin | src/decision/scoring.py:11-12 | joining non-empty comma-free labels with "," and scoring them counts exactly one point per label |
| Policy.DecideAction | src/decision/policy.py:1-9 | the action chosen is one whose half-open interval (by the threshold definition) holds the score |
| Policy.DecideActionIntervals | src/decision/policy.py:1-9 | every integer maps to the one action whose half-open interval contains it |
| Policy.DecideActionCases | src/decision/policy.py:2-9 | ALLOW iff score < 3 (negative scores included), MONITOR iff 3 <= score < 6, DECEIVE iff 6 <= score < 9, THROTTLE iff score >= 9 |
| Policy.DecideActionMonotone | src/decision/policy.py:2-9 | a <= b implies rank(decide a) <= rank(decide b) |
| Policy.DeceptionFromSix | src/decision/policy.py:6-9 | the two deceiving actions are exactly the scores from 6 up |
| Behavior.AnyKeyword | src/behavior/analyzer.py:7 | `any(k in text ...)` holds iff some keyword is a substring of the text |
| Behavior.IsLoginPath | src/behavior/analyzer.py:4-7 | a path is a login path iff its lower-cased form contains "login", "signin" or "auth" |
| Behavior.RecentRows | src/behavior/analyzer.py:15-18 | the selected rows are exactly the log rows of that client at or after the window start, no more rows than the log (how often each is counted: `RecentRowsMultiplicity`) |
| Behavior.RecentRowsMultiplicity | src/behavior/analyzer.py:15-19 | `COUNT(*)` counts each row of the client inside the window as often as it occurs in the log (two requests in the same second count twice), and every other row never |
| Behavior.CountRecentRequests | src/behavior/analyzer.py:9-24 | a failing query counts 0; otherwise the count is at most the number of log rows |
| Behavior.CountPositiveIff | src/behavior/analyzer.py:12-19 | the count is positive iff some row of the client has a timestamp at or after the window start |
| Behavior.BehaviorRisk | src/behavior/analyzer.py:26-39 | the risk is the rate risk of the one-minute count plus 3 for a login path, and lies in {0, 2, 3, 5, 6, 9} |
| Behavior.RateRisk | src/behavior/analyzer.py:31-34 | the rate contribution is 0 iff the count is at most 10, 2 iff it is 11 to 25, 6 iff it is above 25 |
| Behavior.BehaviorScore | src/behavior/analyzer.py:26-39 | the risk is one of 0, 2, 3, 5, 6, 9, and at least 3 iff the path is a login path or the count is above 25 |
| Behavior.RateRiskBands | src/behavior/analyzer.py:31-34 | the rate risk is 0 up to 10 requests, 2 for 11 to 25, and 6 above 25 |
| Behavior.LoginAddsThree | src/behavior/analyzer.py:36-37 | a login path adds exactly 3 whatever the count |
| Behavior.BehaviorScoreShape | src/behavior/analyzer.py:26-39 | the risk is in {0, 2, 3, 5, 6, 9} and non-decreasing in the count |
| Behavior.RecentRowsAppend | src/behavior/analyzer.py:15-19 | the count distributes over a log split in two |
| Behavior.OutsideRowsIgnored | src/behavior/analyzer.py:12-19 | rows older than the window, or from other clients, do not change the count |
| Behavior.WindowRowsCounted | src/behavior/analyzer.py:12-19 | every row of the client inside the window is counted |
| Behavior.ElevenRecentRequestsRaiseRisk | src/behavior/analyzer.py:29-32 | eleven rows of one client within the last minute give at least the first rate band's +2 |
| Behavior.FailedQueryCountsZero | src/behavior/analyzer.py:20-21 | a failing count query counts 0, so only the path can add risk |
| Signature.RawKey | src/deception/signature.py:5 | the raw key is the path, a `|`, the params, a `|` and the attack type, laid out in that order and nothing else |
| Signature.GenerateSignature | src/deception/signature.py:3-6 | the signature is 64 lower-case hexadecimal characters |
| Signature.HexDigest | src/deception/signature.py:6 | the hex digest has two lower-case hex digits per byte |
| Signature.ParseHexDigest | src/deception/signature.py:6 | the hex digest can be read back into the digest bytes |
| Signature.SignatureIdentifiesDigest | src/deception/signature.py:5-6 | two signatures are equal iff the hash gives both raw keys the same digest |
| Signature.SameRawKeySameSignature | src/deception/signature.py:3-6 | the signature depends only on the raw key, so it is deterministic |
| Signature.RawKeySplits | src/deception/signature.py:5 | for parts free of `|`, the raw key splits back into path, params and attack type, in that order |
| Signature.RawKeyInjective | src/deception/signature.py:5 | for parts free of `|`, different triples have different raw keys |
| Signature.RawKeyCollision | src/deception/signature.py:5-6 | the different triples ("a|b", "c", t) and ("a", "b|c", t) get the same signature under every hash |
| DeceptionCache.ResponseCache.constructor | src/database.py:51-59 | a freshly created table is empty, with no stores made |
| DeceptionCache.ResponseCache.GetCachedResponse | src/deception/cache.py:3-12 | a present signature gives its stored text and an absent one None; that text is the one of the first store ever made for the signature |
| DeceptionCache.ResponseCache.StoreFakeResponse | src/deception/cache.py:14-24 | the table becomes INSERT OR IGNORE of the record into the old table; the table stays the first-writer replay of every store made |
| DeceptionCache.InsertOrIgnore | src/deception/cache.py:19-21 | the signature is present afterwards, no other key appears, existing entries keep their records, and an absent signature gets the given record |
| DeceptionCache.InsertKeepsExisting | src/deception/cache.py:18-21 | storing under a present signature leaves the table unchanged |
| DeceptionCache.InsertCreatesRecord | src/deception/cache.py:19-21 | storing under an absent signature adds exactly that key, with the given attack type and response |
| DeceptionCache.InsertLeavesOthers | src/deception/cache.py:19-21 | a store leaves every other signature's entry unchanged |
| DeceptionCache.InsertIdempotent | src/deception/cache.py:19-21 | a second store under the same signature, with any record, changes nothing |
| DeceptionCache.ReplayIsFirstWriter | src/deception/cache.py:14-21 | after any sequence of stores a signature is present iff it was ever stored, and it holds the record of its first store |
| DeceptionCache.StoreTwiceIsStoreOnce | src/deception/cache.py:19-21 | storing the same triple twice gives the same table as storing it once |
| DecisionChain.LoggedMatches | src/main.py:45 | the logged match string is empty iff there are no labels, and splitting it at "," gives the labels back |
| DecisionChain.LoggedMatchesCount | src/main.py:45 | the engine's labels joined by "," as logged split back into one piece per label |
| DecisionChain.RuleRiskByVerdict | src/decision/scoring.py:2-18 | the score of an engine outcome is 0, 3 or 5 + n for SAFE, SUSPICIOUS or MALICIOUS with n labels, plus 3 for UNSAFE |
| DecisionChain.MaliciousIsDeceived | src/decision/policy.py:6-9 | a MALICIOUS outcome scores at least 7 and is DECEIVE or THROTTLE whatever the advisory says |
| DecisionChain.SuspiciousOutcome | src/decision/policy.py:2-7 | a SUSPICIOUS outcome is MONITOR, or DECEIVE when the advisory says UNSAFE |
| DecisionChain.SafeOutcome | src/decision/policy.py:2-5 | a SAFE outcome is ALLOW, or MONITOR when the advisory says UNSAFE |
| DecisionChain.AdvisoryCannotLowerAction | src/decision/scoring.py:14-16 | no advisory verdict and no added non-negative contribution makes the action milder |

## Left out

- Regular-expression semantics of `src/rules/patterns.py` and the `ATTACK_VECTORS` table: patterns are opaque identifiers and `search` decides them. This includes each pattern's `(?i)` flag.
- Unicode case mapping: `lower()` and `upper()` are modelled for ASCII letters only. `strip()` uses Python's complete list of white-space characters.
- SHA-256 and the UTF-8 encoding of the raw key are one uninterpreted function to 32 bytes. The hex encoding is modelled.
- The HTTP request to the language model, its prompt text and its 30-second timeout: the outcome and the latency are inputs. The latency's floating-point clock arithmetic is not modelled.
- `src/deception/ai_generator.py` (the generation call, its 500-character truncation and its two fallback strings): network wrapper, not part of this model.
- `src/gateway/forwarder.py` and the FastAPI handler in `src/main.py`: transport glue. Only the `",".join(matches)` step is modelled.
- SQLite: schema migrations, log inserts, connections, and the dashboard.
- Database errors: the cache methods and the connection step of `count_recent_requests` raise on a database error in the source (src/deception/cache.py:4-12 and 15-24 catch nothing; src/behavior/analyzer.py:10-11 run before the `try`). The model assumes the database can be reached, so `GetCachedResponse` and `StoreFakeResponse` cannot fail, and `None` in `CountRecentRequests` stands only for a failing query.
- Behavior.CountRecentRequests: timestamps are whole seconds compared as integers. SQLite actually compares stored text timestamps with Python's `datetime` parameter, and that sub-second comparison is not modelled.
- The `id` and `created_at` columns of `fake_responses` are not modelled. The table starts empty, as a fresh database does.
- Concurrency: the concurrent-writer race that INSERT OR IGNORE guards against. The cache is modelled sequentially.
- Scoring.CalculateRisk: the arguments are typed. `rule_verdict` is one of the three engine verdicts, and `llm_verdict` is one of the analyzer's verdicts or `NotRun` for a classifier that was not consulted. Other strings are not modelled; the source scores them 0.
