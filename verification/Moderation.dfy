/** The scoring schema: categories, frames and verdicts. Scores are reals; a missing score is None. */
module Moderation {
  import opened QueueTypes

  datatype Verdict = Allow | Flag | Block | Error

  datatype FrameStatus = FrameOk | FrameError

  datatype CategoryResult = CategoryResult(
    category: string,
    providerLabel: string,
    score: Option<real>,
    threshold: Option<real>,
    flagged: bool)

  datatype FrameResult = FrameResult(
    timestamp: Option<real>,
    status: FrameStatus,
    error: string,
    categories: seq<CategoryResult>)

  datatype Overall = Overall(
    verdict: Verdict,
    flagged: bool,
    topCategory: Option<string>,
    maxScore: Option<real>,
    confidence: Option<real>)

  const OTHER: string := "OTHER"

  const CANONICAL: set<string> := {
    "SEXUAL", "SUGGESTIVE_RACY", "VIOLENCE", "GORE_GRAPHIC", "WEAPONS", "SELF_HARM", "HATE", "DRUGS",
    "ALCOHOL_TOBACCO", "GAMBLING", "OFFENSIVE_GESTURE", "MEDICAL", "SPOOF", "ANIMATED_SYNTHETIC", OTHER }

  /** Unknown categories fold to OTHER. */
  function Canonicalize(c: string): (r: string)
    ensures r in CANONICAL && (r == c || r == "OTHER")
    ensures r == c <==> c in CANONICAL
  {
    if c in CANONICAL then c else OTHER
  }

  predicate Reaches(score: Option<real>, bound: Option<real>) {
    score.Some? && bound.Some? && score.value >= bound.value
  }
}
