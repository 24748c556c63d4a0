/**
  The configuration constants of the rating engine (config.py).
*/
module Config {
  /** Prior of a competitor with no stored rating. */
  const NoobSkill: real := 1000.0
  const NoobUncertainty: real := 350.0

  /** The newcomer-weight ramp: its floor and its length in matches. */
  const NoobWeight: real := 0.1
  const NoobPlacement: int := 5

  /** The rating grid runs from RatingMin to RatingMax in steps of one. */
  const RatingMin: int := 100
  const RatingMax: int := 3000

  /** Scales of the logistic squash: for margins, stage counts and field sizes. */
  const PercentFactor: real := 0.05
  const StageCountFactor: real := 0.15
  const CompetitorCountFactor: real := 0.01

  /** mmr_format drops classifier stages unless told otherwise. */
  const IgnoreClassifier: bool := true
}
