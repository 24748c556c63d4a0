# Elo-MMR match ratings for USPSA matches, in Dafny

This project models the rating engine of EloRating. The engine rates practical-shooting
competitors from the results of USPSA matches exported by PractiScore. One call of
`match_update` does the following:

1. It loads a match's results for one division (`mmr_format`).
2. It drops the classifier stages and re-scores (`noclassifier`).
3. It builds a `Competitor` object for each entry whose percent is positive.
4. It ranks every competitor against the others (`win_loss_ranking`).
5. It looks up each member's newest stored rating, or gives a newcomer the default prior
   (`get_competitor_rating`).
6. It solves for each competitor's match performance on the integer rating grid
   100..3000 (`performance_rating`). The solve uses the Elo-MMR win and loss likelihoods
   and the newcomer weight.
7. It moves each rating towards the most likely point of prior times performance
   (`new_rating`), damped by the stage count and the field size.
8. It appends a new row to the ratings table for every member (`write_competitor`).

The older Elo update of `Application/elo.py` (`expected_scores`, `scores_normalized`,
`rating_adjustment`) is modelled too. So are the parts of `Utilities/practiscore.py` that read
the text export: the record lines, `int()` of their fields, the header lookup and the match
level, `isuspsa` and `isnumberfake`.

Modules, one per source file:

| module | file | source |
|---|---|---|
| `Config` | config.dfy | config.py |
| `Outcomes` | outcomes.dfy | `None`, raised exceptions |
| `Numerics` | numerics.dfy | np.round, np.sum, np.min/max, np.argmin/argmax, Python indexing |
| `PyStr` | pystr.dfy | the `str` methods the parser calls |
| `EloMmr` | elommr.dfy | Application/elommr.py |
| `Elo` | elo.dfy | Application/elo.py |
| `Rating` | rating.dfy | Application/rating.py |
| `Database` | database.dfy | the two functions of Application/database.py that the pipeline calls |
| `Rescore` | noclassifier.dfy | `noclassifier` of Utilities/practiscore.py |
| `Practiscore` | practiscore.dfy | the rest of the modelled part of Utilities/practiscore.py |
| `MatchUpdate` | matchupdate.dfy | `match_update` of Application/rating.py |

How the Python maps onto Dafny:

- Code that mutates objects is written as Dafny code that mutates objects:
  - `Competitor` is a class.
  - The ratings table is a `Ledger` object holding a sequence of rows.
  - `win_loss_ranking`, `performance_rating`, `new_rating`, `new_uncertainty`,
    `match_uncertainty`, `mmr_format` and `match_update` are methods with loops.
- Each of those methods is proved against a specification function of the old state.
- Pure computations are functions, with lemmas about them.
- Numbers are exact reals, so floating-point rounding is out of the model. `np.round` is
  written out as round-half-to-even.
- `np.exp`, `10 ** x`, `np.sqrt`, the kernel densities `pdf` and `cdf`, and the kernel choice
  are parameters of the model. Their laws are stated as predicates that the proofs may use:
  - positivity;
  - `exp(0) = 1` and monotonicity;
  - `sqrt` is the non-negative square root;
  - densities are non-negative, and cdf lies in (0, 1).
- A raised exception is a `Result` error or an `Outcome`. `None` is an `Option`.

Where the code and the documented behaviour disagree, the model follows the code:

- `new_rating` does not clamp the new rating to `rating_min`. The documentation says it does.
- The curved part of `loss_distribution` divides the pdf by `-cdf(...)`. It is therefore never
  positive, although the documentation calls both likelihoods non-negative.
- In `win_loss_ranking` a competitor's wins are the competitors placed after it. Its losses are
  those placed before it.
- `match_update` calls `mmr_format(file, division)`. Its own `match_type` argument is never
  passed on, so the competitors always carry the match type 'USPSA' (`MatchUpdate.MatchUpdated`).
- `rating_adjustment` floors at the literal 100, not at its `min_rating` argument.
- `performance_rating` builds Q from `win_distribution` as written, tail slope included
  (`Rating.Influence` uses `EloMmr.WinDistributionAsWritten`). The corrected tail of the
  finding below is proved about on its own and is not used by the pipeline.
- `expected2` equals `expected_scores`: doubling each expectation and the number of pairs
  cancels out.
- `str.strip('$INFO ')`, `strip('G ')` and `strip('I ')` strip a set of characters from both
  ends, not a prefix. The model strips a set. `Practiscore.StripTag` shows when that leaves
  the body intact.

## Model

| member | source | states |
|---|---|---|
| `EloMmr.Squash` | Application/elommr.py:91-109 | `logistic(x, mean, scale)` lies strictly between 0 and 1 and is exactly 1/2 at the mean |
| `EloMmr.SquashUpperHalf` | Application/elommr.py:91-109 | above the mean, with a non-negative scale, the squash is at least 1/2 |
| `EloMmr.SquashMonotone` | Application/elommr.py:91-109 | with a non-negative scale the squash never decreases |
| `EloMmr.Weight` | Application/elommr.py:225-252 | the newcomer weight is 1 from `placement` matches on and `min_weight` at 0 or fewer; it always lies in [min_weight, 1] |
| `EloMmr.WeightRamp` | Application/elommr.py:244-249 | strictly inside the ramp the weight is the straight line from (0, min_weight) to (placement, 1) |
| `EloMmr.WeightMonotone` | Application/elommr.py:244-251 | more matches never give a smaller weight |
| `EloMmr.RampBounds` | Application/elommr.py:249 | the ramp's interior values lie between its two ends |
| `EloMmr.WinDistributionAsWritten` | Application/elommr.py:192-222 | `win_distribution` as written, the one the performance solve uses; at or right of the breakpoint mean - 2 * scale it is non-negative |
| `EloMmr.WinTailAsWrittenShape` | Application/elommr.py:213-217 | the written tail meets the curve at the breakpoint, but its slope is the secant's with the sign flipped: it reaches 2 * y2 - y1, not y1, ten points on |
| `EloMmr.WinAsWrittenContinuous` | Application/elommr.py:213-222 | the written tail and the curve agree at the breakpoint |
| `EloMmr.WinAsWrittenTurnsBack` | Application/elommr.py:213-222 | where the curve falls over [b, b + 10], the written function peaks at b and differs from the secant ten points left of b |
| `EloMmr.WinDistribution` | Application/elommr.py:213-222 | the corrected half of the finding below: the win likelihood with the secant tail in place of lines 213-217, non-negative from the breakpoint on; the rating pipeline does not use it |
| `EloMmr.WinTailIsSecant` | Application/elommr.py:213-217 | the corrected tail passes through the curve at b and at b + 10, so the likelihood is continuous |
| `EloMmr.WinTailContinuesTrend` | Application/elommr.py:213-222 | where the curve falls over [b, b + 10], the corrected likelihood keeps rising to the left of b |
| `EloMmr.WinTailFalls` | Application/elommr.py:213-217 | the corrected tail falls from left to right when its two samples do |
| `EloMmr.SecantFalls` | Application/elommr.py:213-217 | a line through a falling pair of samples falls from left to right |
| `EloMmr.LossCurve` | Application/elommr.py:161-162 | the curved part of the loss likelihood, `pdf / (-cdf(-x, -mean))`, is never positive |
| `EloMmr.LossDistribution` | Application/elommr.py:134-164 | `loss_distribution`; at or left of the breakpoint mean + 2 * scale it is never positive |
| `EloMmr.LossTailIsSecant` | Application/elommr.py:155-159 | the loss tail passes through the curve at b - 10 and at b: it is the secant extended to the right |
| `Elo.ExpectedScore` | Application/elo.py:21-22 | `1 / (1 + 10 ** ((Rb - Ra) / D))` lies strictly between 0 and 1 |
| `Elo.ExpectedScore2` | Application/elo.py:35-36 | expected2's inner score is twice `expected_scores`' inner score |
| `Elo.ExpectedScoresComplement` | Application/elo.py:21-22 | the expectations of two players against each other add up to 1 |
| `Elo.OrderedPairsClosedForm` | Application/elo.py:29 | the ordered pairs of distinct players number N * (N - 1) |
| `Elo.TotSquare` | Application/elo.py:26-29 | over N players the off-diagonal expectations add up to N * (N - 1) / 2 |
| `Elo.ExpectedSharesAreRows` | Application/elo.py:26-29 | each entry of `expected_scores` is the player's whole row divided by the number of pairs |
| `Elo.ExpectedSharesSumToOne` | Application/elo.py:4-31 | for two or more players the expected scores add up to 1 |
| `Elo.ExpectedScores` | Application/elo.py:4-31 | the double loop computes each player's share; the shares add up to 1 for two or more players; one player gets [0] |
| `Elo.Expected2` | Application/elo.py:34-44 | `expected2` computes the same shares as `expected_scores` |
| `Elo.Shifted` | Application/elo.py:68 | `scores - np.min(scores)` is non-negative and 0 at the minimum |
| `Elo.ShiftedTotalZero` | Application/elo.py:68-70 | the shifted total is 0 exactly when all scores are equal |
| `Elo.FloorShares` | Application/elo.py:65-71 | the floor shares are non-negative and 0 for the lowest score |
| `Elo.FloorSharesSumToOne` | Application/elo.py:65-71 | the floor shares add up to 1 |
| `Elo.FloorSharesKeepOrder` | Application/elo.py:65-71 | a higher score never gets a smaller share |
| `Elo.NormalizeFloor` | Application/elo.py:65-71 | 'floor': ValueError for no scores; nan/inf when all scores are equal; otherwise shares that add up to 1 |
| `Elo.PercentShares` | Application/elo.py:72-73 | 'percent': the best score gets 1 |
| `Elo.PercentSharesBounded` | Application/elo.py:72-73 | with a positive best score, no share exceeds 1 and order is kept |
| `Elo.NormalizePercent` | Application/elo.py:72-73 | 'percent': ValueError for no scores; nan/inf when the best score is 0; otherwise the fractions of the best |
| `Elo.ScoresNormalized` | Application/elo.py:47-73 | an unknown method gives None; each known method raises exactly for no scores and otherwise behaves as its branch |
| `Elo.Broadcast` | Application/elo.py:101-102 | a scalar k becomes one k per rating; a list is used as given |
| `Elo.AdjustDirection` | Application/elo.py:104-105 | with K > 0 and N >= 2 a rating rises exactly when the share beats the expectation, and falls exactly when it trails it |
| `Elo.SurpriseBalances` | Application/elo.py:104-113 | when shares and expectations have the same total, the surprises cancel out |
| `Elo.AdjustedIsShift` | Application/elo.py:110-113 | with one K, every rating moves by K * (N - 1) times its surprise |
| `Elo.AdjustedKeepsTotal` | Application/elo.py:110-113 | with one K and balanced shares, the adjustment keeps the total rating |
| `Elo.AdjustmentsBalance` | Application/elo.py:107-113 | with one K and scores that are not all equal, the adjusted ratings keep their total |
| `Elo.NewRatings` | Application/elo.py:115-118 | every returned rating is a whole number of at least 100 |
| `Elo.NewRatingsTrackAdjustment` | Application/elo.py:115-118 | under 100 the rating becomes 100; above it the rating is within half a point of the adjusted value |
| `Elo.AdjustEach` | Application/elo.py:110-118 | the two loops give the adjusted, floored and rounded ratings |
| `Elo.RatingAdjustment` | Application/elo.py:76-118 | ValueError on a length mismatch or no scores; IndexError for a short k list; nan/inf when all scores are equal; otherwise the new ratings |
| `Numerics.RoundHalfEven` | Application/rating.py:237-238 | `np.round(x, 0)` is within half of x, and a tie goes to the even neighbour |
| `Numerics.RoundIsNearest` | Application/rating.py:237-238 | the rounding is the unique nearest integer (the even one on a tie) |
| `Numerics.RoundKeepsSign` | Application/rating.py:238 | rounding never changes the sign |
| `Numerics.RoundShift` | Application/rating.py:237-238 | away from ties, adding an integer commutes with rounding |
| `Numerics.PyIndex` | Application/rating.py:179 | `s[k]` reads from the end for a negative k |
| `Numerics.PyPos` | Application/rating.py:179 | the position Python reads is in range and equals k for k >= 0 |
| `Numerics.MinOf` | Application/elo.py:68 | `np.min` is at most every element and is one of them |
| `Numerics.MaxOf` | Application/elo.py:73 | `np.max` is at least every element and is one of them |
| `Numerics.FirstArgMin` | Application/rating.py:190 | `np.argmin` is the first position of a smallest element |
| `Numerics.FirstArgMax` | Application/rating.py:231 | `np.argmax` is the first position of a largest element |
| `Numerics.SqrtUnique` | Application/rating.py:264 | `np.sqrt` of a non-negative number is its unique non-negative root |
| `Numerics.SumDiv` | Application/elo.py:70 | dividing every element by h divides the sum by h |
| `Numerics.SumMoved` | Application/elo.py:112-113 | moving every element by c times a matching element moves the sum by c times that total |
| `PyStr.Split` | Utilities/practiscore.py:217 | `str.split(sep)` gives at least one piece and no piece holds the separator |
| `PyStr.JoinSplit` | Utilities/practiscore.py:221 | joining the pieces of a split gives back the text |
| `PyStr.SplitJoin` | Utilities/practiscore.py:366 | splitting a join of separator-free pieces gives back the pieces |
| `PyStr.SplitHead` | Utilities/practiscore.py:217-218 | the first piece is the text up to the first separator |
| `PyStr.LStrip` | Utilities/practiscore.py:230 | `lstrip` removes exactly the leading characters in the set |
| `PyStr.RStrip` | Utilities/practiscore.py:220 | the trailing characters in the set are removed and no more |
| `PyStr.Strip` | Utilities/practiscore.py:219-220 | `strip(chars)` cuts characters of the set from both ends until one outside it |
| `PyStr.LStripPrefix` | Utilities/practiscore.py:219 | leading characters that are all in the set make no difference |
| `PyStr.StripNothing` | Utilities/practiscore.py:220 | text that neither begins nor ends with a stripped character is left alone |
| `PyStr.Remove` | Utilities/practiscore.py:540 | `replace(c, '')` removes every c and keeps every other character |
| `PyStr.RemoveAbsent` | Utilities/practiscore.py:540 | removing an absent character changes nothing |
| `PyStr.RemoveOne` | Utilities/practiscore.py:540 | on one character, `replace(c, '')` drops it when it is c and keeps it otherwise |
| `PyStr.RemoveAppend` | Utilities/practiscore.py:540 | removal keeps the order of what stays: on joined text it is the two removals, joined |
| `PyStr.UpperAppend` | Utilities/practiscore.py:540 | `upper()` of joined text is the two upper-cased parts, joined |
| `PyStr.Upper` | Utilities/practiscore.py:540 | `upper()` keeps the length, leaves no lower-case letter and maps each character on its own |
| `PyStr.Lower` | Utilities/practiscore.py:226 | `lower()` keeps the length and leaves no upper-case letter |
| `PyStr.LowerIdempotent` | Utilities/practiscore.py:226 | lower-casing twice is lower-casing once |
| `PyStr.UpperKeepsPunctuation` | Utilities/practiscore.py:540 | upper-casing creates and removes no space or hyphen |
| `PyStr.Contains` | Utilities/practiscore.py:160 | `sub in s` holds exactly when sub occurs somewhere in s |
| `PyStr.MixedWord` | Utilities/practiscore.py:162-163 | an alphanumeric word that is neither all digits nor all letters holds a digit and a letter |
| `Rating.Competitor.constructor` | Utilities/practiscore.py:525-539 | a fresh Competitor holds the given values |
| `Rating.Competitor.SetComparisons` | Application/rating.py:143-144 | `wins` and `losses` are set and nothing else changes |
| `Rating.Competitor.SetPerformance` | Application/rating.py:190 | `performance` is set and nothing else changes |
| `Rating.Competitor.SetRating` | Application/rating.py:237-238 | `rating` and `last_change` are set and nothing else changes |
| `Rating.Competitor.SetUncertainty` | Application/rating.py:288 | `uncertainty` is set and nothing else changes |
| `Rating.Competitor.SetPrior` | Application/database.py:30-33 | the four prior fields are set and nothing else changes |
| `Rating.Competitor.CountMatch` | Application/rating.py:116 | `number_of_matches` goes up by one and nothing else changes |
| `Rating.WinLossRanking` | Application/rating.py:121-145 | every competitor's wins and losses become those of the ranking of the old list; nothing else changes |
| `Rating.Compare` | Application/rating.py:139-142 | the inner loop collects, in list order, the (place, margin) of those placed after i and those placed before i |
| `Rating.CompareMatches` | Application/rating.py:139-142 | the loop over plain columns collects the same entries as the ranking of the records |
| `Rating.RankingMembers` | Application/rating.py:141-142 | an entry is among i's wins (losses) exactly when it is some competitor placed after (before) i, with i's percent minus theirs |
| `Rating.RankingSides` | Application/rating.py:141-142 | a win carries a worse place than i's, a loss a better one |
| `Rating.RankingCount` | Application/rating.py:138-142 | with distinct places each competitor is compared with each of the other N - 1 once |
| `Rating.RankingAntisymmetric` | Application/rating.py:141-142 | if j is placed after i, i holds j among its wins, j holds i among its losses, and the margins are opposite |
| `Rating.InfluenceLeansToList` | Application/rating.py:180-189 | the squashed margin is at least 1/2, so each entry leans towards its own list's likelihood |
| `Rating.QRowAt` | Application/rating.py:176-189 | Q at each grid point is the pull of the wins plus the pull of the losses |
| `Rating.AccumulateAt` | Application/rating.py:178-189 | after `Q += ...` for each entry, Q at a grid point is its start plus the sum of the entries' pulls |
| `Rating.Field` | Application/rating.py:177-189 | the inner loops compute Q over the grid |
| `Rating.Locate` | Application/rating.py:190 | the performance is the grid point at `np.argmin(np.abs(Q))` |
| `Rating.LocatedMinimises` | Application/rating.py:172-190 | the performance is a grid point where abs(Q) is smallest, and no earlier grid point ties it |
| `Rating.LocatedWithoutComparisons` | Application/rating.py:177-190 | a competitor without wins or losses gets the lowest grid point |
| `Rating.PerformanceRating` | Application/rating.py:148-193 | every competitor gets the performance of the solve; an unreadable opponent index raises IndexError after the competitors before it are done; an empty grid raises ValueError |
| `Rating.SolveAll` | Application/rating.py:176-190 | the outer loop on a non-empty grid writes the solve's performances and stops at the first unreadable list |
| `Rating.SecondPassChangesNothing` | Application/rating.py:98-105 | solving again after a successful solve gives the same records and outcome |
| `Rating.SolveKeeps` | Application/rating.py:176-190 | the solve writes performances and nothing else |
| `Rating.SignificanceRange` | Application/rating.py:233-234 | a count's weight lies in [0.1, 1.6), is 0.1 for a count of 1, and grows with the count |
| `Rating.DampingRange` | Application/rating.py:233-236 | the damping of a real match lies in [0.1, 1.6) and is 0.1 for one stage and one competitor |
| `Rating.PosteriorAt` | Application/rating.py:228-230 | prior density times performance density is non-negative |
| `Rating.MapPointMaximises` | Application/rating.py:231 | the most likely point is a grid point of largest posterior, and the first such |
| `Rating.NewRating` | Application/rating.py:196-241 | an empty grid raises ValueError and changes nothing; otherwise rating and last_change become those of the damped move and nothing else changes |
| `Rating.RatingFollowsEvidence` | Application/rating.py:231-238 | with at least one stage and one competitor, an integral rating moves towards the most likely point, never past it, and last_change has the move's sign |
| `Rating.ChangeAddsUp` | Application/rating.py:237-238 | for an integral rating, new rating = old rating + last_change unless the damped move ends on an odd tie |
| `Rating.ChangeMissesOddTie` | Application/rating.py:237-238 | for 1001 and a move of 0.5 the new rating is 1002 while last_change is 0 |
| `Rating.MatchUncertainty` | Application/rating.py:244-264 | the loop gives `sqrt` of the mean squared uncertainty |
| `Rating.RmsRoot` | Application/rating.py:259-264 | the match uncertainty is the non-negative root of the mean square |
| `Rating.RmsBetween` | Application/rating.py:259-264 | with non-negative uncertainties the match uncertainty lies between the smallest and the largest |
| `Rating.MeanSquareBounds` | Application/rating.py:259-262 | with uncertainties in [lo, hi] the mean square lies in [lo², hi²] |
| `Rating.PseudoRmsHalves` | Application/rating.py:283-284 | `pseudo_rms` is non-negative and its square is a quarter of the sum of squares |
| `Rating.NewUncertainty` | Application/rating.py:267-289 | every uncertainty becomes its pseudo-RMS with the match uncertainty and nothing else changes |
| `Database.Latest` | Application/database.py:43-47 | no row is found exactly when none matches the key; otherwise the row found matches and has the latest match date |
| `Database.LatestFindsNewWrite` | Application/database.py:43-47 | a new matching row no older than the stored ones is the one found next |
| `Database.LatestIgnoresOtherKeys` | Application/database.py:43-47 | a row for another key does not change the lookup |
| `Database.PriorDefaults` | Application/database.py:27-73 | newcomer exactly when there is no member number or no stored row; newcomers get 1000, 350 and 0 matches; others the stored values with a NULL or '' count as 0; only those four fields change |
| `Database.WriteThenRead` | Application/database.py:174-203 | after a member's row is written, the lookup returns the written rating, uncertainty and count |
| `Database.Ledger.WriteCompetitor` | Application/database.py:193-200 | one row with the competitor's values is appended |
| `Database.GetCompetitorRating` | Application/database.py:6-73 | the competitor's prior fields become those of the lookup |
| `MatchUpdate.Run` | Application/rating.py:86-118 | from the entries on, the list and the table end as the pipeline function says; a second solve happens exactly when the first succeeded and a newcomer is present |
| `MatchUpdate.MatchUpdate` | Application/rating.py:71-118 | `match_update` on a loaded match: a re-scoring error is raised before anything is written; otherwise the pipeline runs on the competitors of `mmr_format` with match type 'USPSA' |
| `MatchUpdate.SolveTwice` | Application/rating.py:98-105 | solving once or twice leaves the same records and outcome |
| `MatchUpdate.Finish` | Application/rating.py:107-117 | after a successful solve: match uncertainty, new ratings, then counts and rows for members |
| `MatchUpdate.LookUpAll` | Application/rating.py:91-95 | every competitor gets its prior; `noobs` is set exactly when some prior is a newcomer |
| `MatchUpdate.RateAll` | Application/rating.py:109-110 | every competitor is re-rated against the match uncertainty and the field size |
| `MatchUpdate.CountAndWrite` | Application/rating.py:114-117 | each member's count goes up by one and one row per member is appended, in list order |
| `MatchUpdate.WrittenMembers` | Application/rating.py:114-117 | the rows written are exactly those of the members |
| `MatchUpdate.CountsFollowMembership` | Application/rating.py:71-118 | when the update completes, each member's count is its prior count plus one, a non-member's is unchanged, one row per member is added; a failed solve writes nothing |
| `Rescore.Divisions` | Utilities/practiscore.py:438-443 | the divisions of the list, each once, and exactly those |
| `Rescore.DivisionsInOrder` | Utilities/practiscore.py:438-443 | the divisions come in the order of their first appearance |
| `Rescore.ZeroPoints` | Utilities/practiscore.py:437-443 | the first loop zeroes every competitor's points and collects the divisions |
| `Rescore.Unclassified` | Utilities/practiscore.py:445-450 | the kept stage numbers are exactly those of the stages that are not classifiers |
| `Rescore.UnclassifiedStages` | Utilities/practiscore.py:445-450 | the stage loop collects those numbers |
| `Rescore.KeptStagesMembers` | Utilities/practiscore.py:486-490 | the new stage list holds exactly the stages with a kept number |
| `Rescore.KeptStagesAppend` | Utilities/practiscore.py:486-490 | the kept stages keep their original order and none is repeated: over two joined stage lists the selection is the two selections, joined |
| `Rescore.KeptStagesOne` | Utilities/practiscore.py:488-489 | a single stage is kept exactly when its number is a kept number |
| `Rescore.KeepStages` | Utilities/practiscore.py:486-490 | the `new_stages` loop builds that list |
| `Rescore.Tally` | Utilities/practiscore.py:452-455 | the tally keeps the list's length and raises only IndexError |
| `Rescore.TallyAt` | Utilities/practiscore.py:452-455 | each competitor's points rise by the stage points of the kept-stage scores that name it, with Python's negative indexing |
| `Rescore.TallyFails` | Utilities/practiscore.py:452-455 | the tally raises exactly when a score on a kept stage names no competitor |
| `Rescore.TallyScores` | Utilities/practiscore.py:452-455 | the score loop computes the tally |
| `Rescore.Hundo` | Utilities/practiscore.py:457-462 | the division's best points, or 0 when none is positive; no competitor of the division has more |
| `Rescore.HundoOf` | Utilities/practiscore.py:457-462 | the `hundo` loop computes that |
| `Rescore.HundoList` | Utilities/practiscore.py:464-467 | one best score per division, in division order |
| `Rescore.PercentBounds` | Utilities/practiscore.py:469-473 | for points up to a positive best score, the percent is at most 100, and it is 100 exactly at the best |
| `Rescore.IndexOf` | Utilities/practiscore.py:471 | `divisions.index(x)` is the first position of x |
| `Rescore.ScorePercents` | Utilities/practiscore.py:469-473 | the percent loop gives each competitor's percent against its division's best, or 0 on ZeroDivisionError |
| `Rescore.ScoredAgainstOwnDivision` | Utilities/practiscore.py:469-473 | each percent is taken against the best score of the competitor's own division |
| `Rescore.SortDesc` | Utilities/practiscore.py:481 | `sorted(..., reverse=True)` gives non-increasing percents and a permutation |
| `Rescore.SortStable` | Utilities/practiscore.py:481 | the sort is stable: entries of one percent keep their order |
| `Rescore.Collect` | Utilities/practiscore.py:477-480 | `div_competitors` holds the division's competitors in list order |
| `Rescore.AppendPlaced` | Utilities/practiscore.py:482-484 | the place loop appends the sorted competitors with places 1, 2, ... |
| `Rescore.Regroup` | Utilities/practiscore.py:475-484 | the division loop builds the new overall list |
| `Rescore.PlacedBlock` | Utilities/practiscore.py:481-484 | a division's places run 1..k in non-increasing percent, and only the place changes |
| `Rescore.RegroupedDivision` | Utilities/practiscore.py:475-484 | in the new list, a listed division's competitors are exactly its sorted and placed block |
| `Rescore.RegroupedPermutes` | Utilities/practiscore.py:475-484 | apart from the places, the new overall list is a permutation of the rescored list |
| `Rescore.ScoringFails` | Utilities/practiscore.py:452-455 | rescoring raises IndexError exactly when a kept-stage score names no competitor |
| `Rescore.ScoringPoints` | Utilities/practiscore.py:437-455 | after rescoring each competitor keeps its position and every field but points and percent; its points are the sum of the kept-stage points routed to it |
| `Rescore.ScoringPercents` | Utilities/practiscore.py:464-473 | each percent is the points over the division's best, times 100, or 0 |
| `Rescore.PercentsTopOut` | Utilities/practiscore.py:464-473 | no percent exceeds 100, and a division with a positive best has a competitor at 100 |
| `Rescore.NoClassifier` | Utilities/practiscore.py:419-492 | `noclassifier` after the load computes the re-scored match |
| `Practiscore.Unsigned` | Utilities/practiscore.py:369 | an unsigned decimal literal parses exactly when it is digits with single underscores between digits |
| `Practiscore.ParseInt` | Utilities/practiscore.py:369-372 | `int(s)` fails only with ValueError |
| `Practiscore.NatTextValue` | Utilities/practiscore.py:369 | the digits of n spell n |
| `Practiscore.ParseIntText` | Utilities/practiscore.py:369-372 | `int(str(n)) == n` for every integer n |
| `Practiscore.RecordTag` | Utilities/practiscore.py:217-218 | `line.split(" ")[0] == tag` holds exactly when the line is the tag or starts with the tag and a space |
| `Practiscore.RecordsMembers` | Utilities/practiscore.py:216-218 | the kept lines are exactly the lines with the record tag |
| `Practiscore.RecordsAppend` | Utilities/practiscore.py:361-363 | selecting records over two joined files gives the two selections in order |
| `Practiscore.RowsOfRecords` | Utilities/practiscore.py:361-376 | the record loop succeeds exactly when every kept line makes a row; the rows are those of the kept lines, in order; a failure is that of the first failing kept line |
| `Practiscore.RowsStayFailed` | Utilities/practiscore.py:361-376 | once a prefix of the lines fails, the whole loop fails with that error |
| `Practiscore.CollectRows` | Utilities/practiscore.py:361-376 | the line loop computes the rows of the record lines |
| `Practiscore.Fields` | Utilities/practiscore.py:364-366 | the fields of a line: at least one |
| `Practiscore.StripTag` | Utilities/practiscore.py:364 | on a line made of the tag, a space, a body and a newline, `strip(tag + ' ')` leaves the body and the newline when the body starts with neither a space nor a character of the tag |
| `Practiscore.LineFields` | Utilities/practiscore.py:362-366 | an export line written from fields is a record of its tag and reads back as those fields |
| `Practiscore.At` | Utilities/practiscore.py:369-375 | `line[i]` gives the field when i is in range and IndexError otherwise |
| `Practiscore.IntAt` | Utilities/practiscore.py:369 | `int(line[i])` succeeds exactly when the field exists and parses |
| `Practiscore.YesNoRead` | Utilities/practiscore.py:373 | 'Yes' reads back as True and 'No' as False |
| `Practiscore.StageOf` | Utilities/practiscore.py:368-376 | a stage row is made exactly when there are 8 fields and fields 0, 2 and 3 parse; with 8 fields the error is ValueError; a short line after a good field 0 raises IndexError |
| `Practiscore.StageRead` | Utilities/practiscore.py:368-376 | the fields of a stage written column by column read back as that stage |
| `Practiscore.StageLineRead` | Utilities/practiscore.py:353-378 | `json_stages` of one written `G` line gives back its stage |
| `Practiscore.JsonStages` | Utilities/practiscore.py:353-378 | `json_stages` over the lines computes the rows of the `G` lines |
| `Practiscore.ScoreOf` | Utilities/practiscore.py:396-414 | a score row is made exactly when there are 31 fields and every integer column parses; with 31 fields the error is ValueError |
| `Practiscore.ScoreRead` | Utilities/practiscore.py:396-414 | the fields of a score written column by column read back as that score |
| `Practiscore.ScoreLineRead` | Utilities/practiscore.py:381-416 | `json_scores` of one written `I` line gives back its score |
| `Practiscore.JsonScores` | Utilities/practiscore.py:381-416 | `json_scores` over the lines computes the rows of the `I` lines |
| `Practiscore.InfoList` | Utilities/practiscore.py:215-222 | `info_list` holds the ':'-pieces of every `$INFO` line, in order |
| `Practiscore.GetInfo` | Utilities/practiscore.py:224-227 | `get_info` gives None exactly when no key matches ignoring case; otherwise the second piece of the first match; a short entry on the way raises IndexError |
| `Practiscore.GetInfoIgnoresCase` | Utilities/practiscore.py:226 | keys equal ignoring case look up the same value |
| `Practiscore.MatchLevel` | Utilities/practiscore.py:229-233 | level 3 for 'Level III', 2 for 'Level II', otherwise 1, after lstrip; AttributeError when the key is missing |
| `Practiscore.FirstContaining` | Utilities/practiscore.py:160 | None exactly when no line holds the text; otherwise a line that holds it, the first such |
| `Practiscore.IsUspsa` | Utilities/practiscore.py:158-166 | IndexError exactly when no line holds 'E 1,'; otherwise True exactly when the second field of the first such line mixes letters and digits |
| `Practiscore.MixedIff` | Utilities/practiscore.py:162-165 | alphanumeric, neither all digits nor all letters, is the same as holding a digit and a letter and nothing else |
| `Practiscore.Normalize` | Utilities/practiscore.py:540 | the cleaned number holds no space, no hyphen and no lower-case letter |
| `Practiscore.NormalizeIdempotent` | Utilities/practiscore.py:540 | cleaning a cleaned number changes nothing |
| `Practiscore.NormalizeAppend` | Utilities/practiscore.py:540 | cleaning works character by character and keeps order: on joined text it is the two cleaned parts, joined |
| `Practiscore.NormalizeOne` | Utilities/practiscore.py:540 | a space or a hyphen is dropped, and any other character is kept, upper-cased |
| `Practiscore.MemberOf` | Utilities/practiscore.py:540-543 | no member exactly when the cleaned number is a placeholder; otherwise the cleaned number, never empty |
| `Practiscore.SpacedPlaceholder` | Utilities/practiscore.py:540-553 | 'n-a ' counts as the placeholder 'NA' |
| `Practiscore.SpacedNumber` | Utilities/practiscore.py:540-553 | 'a-1 2' becomes member 'A12' |
| `Practiscore.EligiblesMembers` | Utilities/practiscore.py:524-545 | the entries kept are exactly those of the division, ignoring case, with a positive percent |
| `Practiscore.EligiblesAppend` | Utilities/practiscore.py:523-545 | the kept entries keep their list order |
| `Practiscore.MmrRecordsMeaning` | Utilities/practiscore.py:495-547 | on a loaded match (whose percents are numbers, see Left out), `mmr_format` fails only when re-scoring fails, with that error; each competitor comes, in order, from a kept entry and carries the division and match type asked for, the match's event and stage count, the entry's points, percent and place; it has no member and is a newcomer exactly when its number is a placeholder |
| `Practiscore.EligibleCompetitors` | Utilities/practiscore.py:522-545 | the loop builds distinct fresh Competitor objects whose values are those records |
| `Practiscore.MmrFormat` | Utilities/practiscore.py:495-547 | `mmr_format` after the load gives distinct fresh Competitors holding the records, or the re-scoring's error; a None percent is not representable (see Left out) |

## Left out

- File, JSON, SQLite and network I/O is not modelled. The loaded match, the lines of a text
  export and the ratings table are values. The `download_*`, `webreport`, `txt_to_json`,
  `competitor_list` and `majors_list` helpers are not part of this model.
- `FileNotFoundError` and the database read error of `get_competitor_rating` are I/O errors
  and are not modelled.
- Floating point is not modelled: numbers are exact reals.
- Elo.ExpectedScore: it and the members built on it require a non-zero scale D; a zero D, which
  numpy turns into inf or nan and Python integers into ZeroDivisionError, is not modelled. The
  callers in the repository pass D = 1000.
- `np.exp`, `np.sqrt`, `10 ** x`, `pdf`, `cdf`, `erf` and `tanh` are parameters with stated
  laws, not computed. Hence `pdf`, `pdf_prime`, `cdf`, `draw_distribution` and
  `cdf_normal_inverse` of Application/elommr.py have no body in the model.
- Plotting (`plot=True`) is not modelled.
- Strings are ASCII:
  - `upper`, `lower`, `isdigit`, `isalpha` and `isalnum` only know ASCII letters and digits;
  - `int()` only knows ASCII digits and the ASCII whitespace.
- `json_header`: the header dictionary is left out: `data_to_unix` of the match date,
  `practiscore_id` taken from the file name, and `int` of the classifier count. The
  `info_list` loop, `get_info` and the match level are modelled.
- `json_overall`, `islevel2` and `islevel3` are not part of this model.
- The float columns of `json_scores` (time, hit factor, stage points) are kept as text, so
  their `float()` errors are not modelled. The integer and yes/no columns are.
- Competitor fields that `mmr_format` leaves at None (rating, uncertainty, performance,
  last_change, number_of_matches) start at 0 or empty, and `noob` starts at False for a real
  member number. The prior lookup overwrites all of them before they are read.
- `noclassifier` works on the loaded match as a value. The Python dictionaries it mutates
  share entries between `overall` and `match_results`; that aliasing is not modelled.
  - Entry fields that `noclassifier` and `mmr_format` do not read are dropped.
  - When `classifiers` is False, the percent is taken from the file as is.
- Practiscore.MmrRecords / Practiscore.MmrFormat: a loaded entry's percent is a number. The
  JSON that `json_overall` writes holds None as the percent of every division outside its
  eight named ones (e.g. 'Limited Optics'). With `classifiers` False, `mmr_format` then raises
  TypeError at `competitor.percent > 0` for such a division. The model cannot represent that
  None, so it does not model this TypeError; with `classifiers` True, `noclassifier` gives
  every entry a number first, and the case does not arise.
- `Database.Latest`: rows of the same key with equal match dates are ordered by writing
  order. SQLite leaves their order unspecified.
- `get_competitor_all`, `get_classifier_codes`, `get_classifier_scores`,
  `get_unique_competitors`, `get_competitor_history` and `get_competitor_current` are not on
  the rating path and are not part of this model.
- `Rating.NewUncertainty` models `new_uncertainty`, which `match_update` does not call. Its
  call is commented out at line 111, and the pipeline does not use it.
- `MatchUpdate.MatchUpdate` takes the loaded match rather than a file path. It returns the
  `Outcome` in place of a raised exception.

## Findings

| source | as written | input that shows it | evidently intended | confidence | as-written member | corrected member |
|---|---|---|---|---|---|---|
| Application/elommr.py:213-217 | the win tail's slope is `(y2 - y1) / 10`, with y2 the curve at b = mean - 2 * scale and y1 the curve at b + 10; left of b the line therefore falls when the curve falls, and at b + 10 it would reach 2 * y2 - y1 instead of y1 | any kernel and parameters where the curve falls over [b, b + 10], e.g. the Gaussian kernel: the likelihood at b - 10 is y1, below its value y2 at b, so the curve has a peak at b | the secant through the two samples, `(y1 - y2) / 10`, continuing the curve to the left, as the loss tail does at Application/elommr.py:155-159; the model's rating pipeline keeps the code as written | not executed | `EloMmr.WinAsWrittenTurnsBack` | `EloMmr.WinTailContinuesTrend` |
