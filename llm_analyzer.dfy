/**
 * The advisory classifier (`analyze_with_llm`). The HTTP round trip and the
 * clock are parameters: the outcome of the request and the measured latency.
 * What is modelled is how that outcome becomes a verdict.
 */
module LlmAnalyzer {
  import opened Text

  /**
   * The advisory verdict. `NotRun` is not produced here; it is the empty
   * verdict a caller records when the classifier was not consulted.
   */
  datatype LlmVerdict = Safe | Unsafe | Unknown | Error | NotRun

  /** The `"response"` member of the decoded JSON body. */
  datatype ResponseField = Absent | Answer(text: string) | NotString

  /** The decoded body: a JSON object, or anything on which `.get` fails. */
  datatype Body = NotAnObject | Object(response: ResponseField)

  /** What `requests.post` produced: a response, or a raised exception (refused connection, timeout). */
  datatype HttpOutcome = Completed(status: int, body: Body) | Raised

  /** The pair `(verdict, latency_ms)` that the analyzer returns. */
  datatype Advisory = Advisory(verdict: LlmVerdict, latencyMs: int)

  /**
   * The classification of the answer text, as written: `text` is the
   * stripped, upper-cased answer; the two strict equality tests at the end
   * are part of the source.
   */
  function Classify(text: string): (r: LlmVerdict)
    ensures r in {Safe, Unsafe, Unknown}
    ensures Contains(text, "UNSAFE") ==> r == Unsafe
    ensures Contains(text, "SAFE") && !Contains(text, "UNSAFE") ==> r == Safe
    ensures r == Unknown ==> !Contains(text, "SAFE")
  {
    if Contains(text, "SAFE") && !Contains(text, "UNSAFE") then Safe
    else if Contains(text, "UNSAFE") then Unsafe
    else if text == "SAFE" then Safe
    else if text == "UNSAFE" then Unsafe
    else Unknown
  }

  /**
   * The answer normalisation: strip, upper-case, classify. The verdict is the
   * priority rule applied to the stripped, upper-cased answer.
   */
  function Normalise(answer: string): (r: LlmVerdict)
    ensures r == PriorityRule(Upper(Strip(answer)))
  {
    ClassifyIsPriorityRule(Upper(Strip(answer)));
    Classify(Upper(Strip(answer)))
  }

  /**
   * `analyze_with_llm` once the request has been made: a non-200 status gives
   * UNKNOWN, an exception (from the request, from decoding the body, or from
   * `.strip()` on a non-string) gives ERROR, otherwise the answer text is
   * normalised; the latency is passed through in every case.
   */
  function AnalyzeWithLlm(outcome: HttpOutcome, latencyMs: int): (a: Advisory)
    ensures a.latencyMs == latencyMs
    ensures a.verdict in {Safe, Unsafe, Unknown, Error}
    ensures outcome.Raised? ==> a.verdict == Error
    ensures outcome.Completed? && outcome.status != 200 ==> a.verdict == Unknown
  {
    match outcome
    case Raised => Advisory(Error, latencyMs)
    case Completed(status, body) =>
      if status != 200 then Advisory(Unknown, latencyMs)
      else
        match body
        case NotAnObject => Advisory(Error, latencyMs)
        case Object(NotString) => Advisory(Error, latencyMs)
        case Object(Absent) => Advisory(Normalise(""), latencyMs)
        case Object(Answer(t)) => Advisory(Normalise(t), latencyMs)
  }

  /** The priority rule the classification implements: UNSAFE first, then SAFE, else UNKNOWN. */
  function PriorityRule(text: string): LlmVerdict {
    if Contains(text, "UNSAFE") then Unsafe
    else if Contains(text, "SAFE") then Safe
    else Unknown
  }

  /** A text containing "UNSAFE" also contains "SAFE". */
  lemma UnsafeContainsSafe(text: string)
    requires Contains(text, "UNSAFE")
    ensures Contains(text, "SAFE")
  {
    ContainsIffOccurs(text, "UNSAFE");
    var i :| OccursAt(text, "UNSAFE", i);
    assert text[i + 2..i + 6] == text[i..i + 6][2..];
    assert OccursAt(text, "SAFE", i + 2);
    ContainsIffOccurs(text, "SAFE");
  }

  /**
   * The classification as written agrees with the priority rule on every text:
   * the strict equality fallbacks never decide anything.
   */
  lemma ClassifyIsPriorityRule(text: string)
    ensures Classify(text) == PriorityRule(text)
    ensures Classify(text) in {Safe, Unsafe, Unknown}
  {
    if text == "SAFE" || text == "UNSAFE" {
      ContainsSelf(text);
    }
    if Contains(text, "UNSAFE") {
      UnsafeContainsSafe(text);
    }
  }

  /**
   * The normalised verdict: UNSAFE whenever the answer contains "UNSAFE"
   * (although it then also contains "SAFE"), SAFE when it contains "SAFE" and
   * not "UNSAFE", UNKNOWN otherwise — all after upper-casing.
   */
  lemma NormaliseCases(answer: string)
    ensures var text := Upper(Strip(answer));
      && (Contains(text, "UNSAFE") ==> Normalise(answer) == Unsafe)
      && (Contains(text, "SAFE") && !Contains(text, "UNSAFE") ==> Normalise(answer) == Safe)
      && (!Contains(text, "SAFE") && !Contains(text, "UNSAFE") ==> Normalise(answer) == Unknown)
  {
    ClassifyIsPriorityRule(Upper(Strip(answer)));
  }

  /** `upper()` on an upper-cased string changes nothing. */
  lemma UpperIdempotent(s: string)
    ensures Upper(Upper(s)) == Upper(s)
  {
  }

  /** Classification is case-insensitive: answers equal up to case get the same verdict. */
  lemma NormaliseIgnoresCase(a: string, b: string)
    requires Upper(a) == Upper(b)
    ensures Normalise(a) == Normalise(b)
  {
    UpperStrip(a);
    UpperStrip(b);
  }

  /** In particular the answers `safe`, `Safe` and `SAFE` are one verdict, and so are the cases of any answer. */
  lemma NormaliseOfUpper(answer: string)
    ensures Normalise(Upper(answer)) == Normalise(answer)
  {
    UpperIdempotent(answer);
    NormaliseIgnoresCase(Upper(answer), answer);
  }

  /** For a 200 response: a text answer follows the priority rule, a missing one is UNKNOWN, a body that is not a JSON object or an answer that is not a string is ERROR. */
  lemma AnalyzeOutcomes(outcome: HttpOutcome, latencyMs: int)
    ensures outcome.Completed? && outcome.status == 200 && outcome.body.Object? && outcome.body.response.Answer?
      ==> AnalyzeWithLlm(outcome, latencyMs).verdict == PriorityRule(Upper(Strip(outcome.body.response.text)))
    ensures outcome.Completed? && outcome.status == 200 && outcome.body.Object? && outcome.body.response.Absent?
      ==> AnalyzeWithLlm(outcome, latencyMs).verdict == Unknown
    ensures outcome.Completed? && outcome.status == 200 && (outcome.body.NotAnObject? || outcome.body.response.NotString?)
      ==> AnalyzeWithLlm(outcome, latencyMs).verdict == Error
  {
    if outcome.Completed? && outcome.status == 200 && outcome.body.Object? && outcome.body.response.Answer? {
      ClassifyIsPriorityRule(Upper(Strip(outcome.body.response.text)));
    }
  }
}
