/** The decision policy (`decide_action`): four actions over half-open score intervals. */
module Policy {

  datatype Action = Allow | Monitor | Deceive | Throttle


  /** The ordinal position of an action: ALLOW < MONITOR < DECEIVE < THROTTLE. */
  function Rank(a: Action): nat {
    match a
    case Allow => 0
    case Monitor => 1
    case Deceive => 2
    case Throttle => 3
  }

  /** The least score of each action's interval; ALLOW's interval has no lower end, so it has none. */
  function Threshold(a: Action): int
    requires a != Allow
  {
    match a
    case Monitor => 3
    case Deceive => 6
    case Throttle => 9
  }

  /** The next harsher action. */
  function Next(a: Action): Action
    requires a != Throttle
  {
    match a
    case Allow => Monitor
    case Monitor => Deceive
    case Deceive => Throttle
  }

  /**
   * The reference definition: a score is in an action's interval when it
   * reaches that action's threshold (ALLOW: any score) and stays below the
   * next action's threshold (THROTTLE: no upper end).
   */
  predicate InInterval(score: int, a: Action) {
    (a == Allow || Threshold(a) <= score) && (a == Throttle || score < Threshold(Next(a)))
  }

  /**
   * `decide_action(risk_score)`, with the source's chain of comparisons: the
   * action returned is one whose interval holds the score.
   */
  function DecideAction(riskScore: int): (a: Action)
    ensures InInterval(riskScore, a)
  {
    if riskScore < 3 then Allow
    else if 3 <= riskScore < 6 then Monitor
    else if 6 <= riskScore < 9 then Deceive
    else Throttle
  }

  /** Every score, negative ones included, maps to the action whose interval holds it, and to no other. */
  lemma DecideActionIntervals(score: int, a: Action)
    ensures DecideAction(score) == a <==> InInterval(score, a)
  {
  }

  /** The four intervals, spelt out. */
  lemma DecideActionCases(score: int)
    ensures DecideAction(score) == Allow <==> score < 3
    ensures DecideAction(score) == Monitor <==> 3 <= score < 6
    ensures DecideAction(score) == Deceive <==> 6 <= score < 9
    ensures DecideAction(score) == Throttle <==> 9 <= score
  {
  }

  /** A higher score never yields a milder action. */
  lemma DecideActionMonotone(a: int, b: int)
    requires a <= b
    ensures Rank(DecideAction(a)) <= Rank(DecideAction(b))
  {
  }

  /** DECEIVE and THROTTLE, the two actions that serve a fake response, are exactly the scores from 6 up. */
  lemma DeceptionFromSix(score: int)
    ensures DecideAction(score) in {Deceive, Throttle} <==> score >= 6
  {
  }
}
