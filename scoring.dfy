/**
 * The scoring law of the leaderboard (calculateScore, server.js:122): the
 * derived score of a post is its raw score times 3.14, rounded up.
 * The factor is taken as the exact rational 314/100.
 */
module Scoring {

  /** The derived score: the least integer that is at least 3.14 * score. */
  function CalculateScore(score: int): (r: int)
    ensures 100 * (r - 1) < 314 * score <= 100 * r
  {
    (314 * score + 99) / 100
  }

  /** A larger raw score never gets a smaller derived score. */
  lemma CalculateScoreMonotone(a: int, b: int)
    requires a <= b
    ensures CalculateScore(a) <= CalculateScore(b)
  {
  }
}
