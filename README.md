# Political quiz scoring — a Dafny model

The quiz app places a respondent on a two-axis ideology map from eight
multiple-choice answers. X runs from -1.0 (left) to +1.0 (right), and Y from
-1.0 (authoritarian) to +1.0 (libertarian). It then shows the three
reference "politicians" whose positions lie closest to that point.

The model covers the scoring engine and the pure part of the scoring request.

- `scoring.dfy`, module `Scoring`, models `prodigius/apps/politics/utils.py`:
  - The axis table `Q_AXIS`.
  - The three-tier per-question scorer `score_answer`.
  - The aggregation loop `compute_coords`. It walks q1..q8, skips missing and
    empty answers, sums scores and weights per axis, divides (0.0 on a zero
    weight sum) and clamps to [-1, 1].
  - The scorer is a function with the source's nested conditionals. Its
    contract ties it to an explicit rule table (`Rule` × `Label` →
    multiplier).
  - The loop is a method with a `for` loop. It is proved against the
    recursive specification `Accumulate` and `Coords`.
  - The axis table is a parameter (`AxisTable`), and the shipped table is the
    constant `QAxis`. This lets the injected Y question 99 of the tests be
    expressed as `QAxis[99 := …]`.
- `key_sort.dfy`, module `KeySort`, models Python's `sorted(items, key=f)[:k]`:
  - It is a stable insertion sort by a real key.
  - Stability is stated through tie groups: for every key value, the items
    with that key keep their input order.
  - Sortedness plus stability are proved to determine the result uniquely.
- `score_view.dfy`, module `ScoreView`, models the pure logic of
  `ScoreView.post` in `prodigius/apps/politics/views.py`:
  - Building the answer map q1..q8 with `""` for absent fields.
  - Computing the coordinate.
  - Building the stored submission record.
  - Selecting the three reference points nearest to the coordinate.
  - Distance is compared through its square. A lemma shows that the
    squared-distance key orders two points exactly as their Euclidean
    distances do, so the order is the one `math.hypot` gives.

Weights, scores and coordinates are exact `real`s. Every constant of the quiz
(1.0, 0.8, 0.6, 0.3) is rational.

## Model

| member | source | states |
|---|---|---|
| Scoring.QAxisShape | prodigius/apps/politics/utils.py:3-12 | The shipped table is defined on exactly 1..8, every weight is 1.0 or 0.8, and the X questions are exactly 1, 2, 4, 5, 7 |
| Scoring.QAxisPositive | prodigius/apps/politics/utils.py:3-12 | The shipped table covers 1..8 with positive weights, the precondition of every aggregation lemma |
| Scoring.LabelOf | prodigius/apps/politics/utils.py:18-46 | The labels the scorer compares against: "A", "B" and "Both" each recognised exactly, every other string (among them "Neither" and "") unrecognised |
| Scoring.RuleOf | prodigius/apps/politics/utils.py:17-40 | The dispatch: the linear rule exactly for X questions, the symmetric rule exactly for Y questions 3 and 6, the convergent rule exactly for Y question 8, the fallback for every other Y question |
| Scoring.ScoreAnswer | prodigius/apps/politics/utils.py:15-46 | The score is the rule table's multiplier for (rule of q, label of the choice) times the weight; it lies within ±weight; an unrecognised label ("Neither", "C", "") scores 0 |
| Scoring.MultiplierInUnitInterval | prodigius/apps/politics/utils.py:15-46 | Every multiplier of every rule is in [-1, 1], and 0 for an unrecognised label |
| Scoring.XAxisScores | prodigius/apps/politics/utils.py:17-22 | On an X question "A" scores -weight, "B" +weight, and every other string (including "Both") 0 |
| Scoring.SymmetricYScores | prodigius/apps/politics/utils.py:24-31 | On Y questions 3 and 6 "A" scores +weight, "B" -weight, "Both" 0.3·weight, anything else 0 |
| Scoring.ConvergentYScores | prodigius/apps/politics/utils.py:32-39 | On Y question 8 "A" and "B" both score 0.6·weight, "Both" the full weight, anything else 0 |
| Scoring.FallbackYScores | prodigius/apps/politics/utils.py:40-46 | Any other Y question scores every choice by the curve of questions 3 and 6 |
| Scoring.FallbackIsSymmetric | prodigius/apps/politics/utils.py:40-46 | The fallback rule and the 3/6 rule have the same multiplier for every label |
| Scoring.InjectedQuestionScores | prodigius/apps/politics/tests/test_scoring.py:40-49 | A Y question 99 of weight 2.0 added to the table scores A=2.0, B=-2.0, Both=0.6, C=0 |
| Scoring.QuestionKeys | prodigius/apps/politics/utils.py:53-54 | The keys read are exactly {"q1", …, "q8"}, one per question number 1..8 |
| Scoring.Key | prodigius/apps/politics/utils.py:54 | The key of question q is `f"q{q}"`: two characters, "q" and then the decimal digit of q |
| Scoring.KeyInjective | prodigius/apps/politics/utils.py:54 | Distinct question numbers read distinct keys |
| Scoring.ChoiceOf | prodigius/apps/politics/utils.py:54 | `answers.get(f"q{q}")`: a missing key reads as "", and a non-empty label is the value stored under the key |
| Scoring.Answered | prodigius/apps/politics/utils.py:55-56 | The `if not choice: continue` test: a question is answered exactly when its label is non-empty, so a missing and an empty answer are both skipped |
| Scoring.Accumulate | prodigius/apps/politics/utils.py:50-65 | The four running sums after questions 1..n, each answered question adding its score and weight to its own axis; with non-negative weights both weight sums stay non-negative |
| Scoring.Average | prodigius/apps/politics/utils.py:66-67 | The average is 0.0 on a zero weight sum, and otherwise the value that times the weight sum gives the total |
| Scoring.Clamp | prodigius/apps/politics/utils.py:68-69 | The result lies in [-1, 1], equals the input inside it, and is the nearer bound outside it |
| Scoring.Coords | prodigius/apps/politics/utils.py:49-70 | The coordinate lies in [-1, 1]² and an axis with zero weight sum is exactly 0.0 |
| Scoring.ComputeCoords | prodigius/apps/politics/utils.py:49-70 | The loop returns exactly the coordinate of the specification Coords (per-axis sums over answered questions, averaged and clamped), within [-1, 1] |
| Scoring.AccumulateBounded | prodigius/apps/politics/utils.py:49-65 | With non-negative weights, each axis total lies within ± its weight sum after any prefix of the questions |
| Scoring.AverageOfBoundedTotal | prodigius/apps/politics/utils.py:66-67 | A total within ± a non-negative weight sum averages into [-1, 1] |
| Scoring.ClampNeverBinds | prodigius/apps/politics/utils.py:66-69 | With non-negative weights the clamp never changes the average: each coordinate is the plain per-axis average |
| Scoring.WeightZeroIffUnanswered | prodigius/apps/politics/utils.py:54-65 | With positive weights, an axis weight sum is zero if and only if no question of that axis is answered |
| Scoring.UnansweredAxisIsZero | prodigius/apps/politics/utils.py:66-67 | An axis with no answered question is exactly 0.0, whatever is answered on the other axis |
| Scoring.AccumulateReadsOnlyChoices | prodigius/apps/politics/utils.py:53-56 | The running sums depend only on the labels read for q1..qn, a missing key read as "" |
| Scoring.CoordsReadOnlyChoices | prodigius/apps/politics/utils.py:53-56 | Two answer maps with the same labels for q1..q8 get the same coordinate |
| Scoring.MissingSameAsEmpty | prodigius/apps/politics/utils.py:54-56 | Setting a question's answer to "" and removing it give the same coordinate |
| Scoring.OtherKeysIgnored | prodigius/apps/politics/utils.py:53-54 | Adding or changing a key outside q1..q8 never changes the coordinate |
| Scoring.AccumulateNothingAnswered | prodigius/apps/politics/utils.py:54-56 | When no question among 1..n is answered, all four running sums are zero |
| Scoring.EmptyAnswersAtOrigin | prodigius/apps/politics/utils.py:54-67 | The empty answer map scores (0.0, 0.0) |
| Scoring.AllAnswersA | prodigius/apps/politics/tests/test_scoring.py:54-66 | All "A" scores exactly (-1.0, 2.28/2.6) |
| Scoring.AllAnswersB | prodigius/apps/politics/tests/test_scoring.py:68-80 | All "B" scores exactly (1.0, -1.32/2.6) |
| Scoring.UnrecognisedLabelCountsWeight | prodigius/apps/politics/tests/test_scoring.py:82-92 | {q5:"B", q3:"Both", q1:"C"} scores (0.8/1.8, 0.3): the unrecognised "C" still adds its weight, and without it x is 1.0 |
| Scoring.OnlyQuestionSix | prodigius/apps/politics/tests/test_scoring.py:94-103 | Only q6="A" scores (0.0, 1.0) |
| Scoring.HighestCorner | prodigius/apps/politics/tests/test_scoring.py:105-127 | X all "B", q3 and q6 "A", q8 "Both" scores exactly (1.0, 1.0) |
| ScoreView.BuildAnswers | prodigius/apps/politics/views.py:24 | The answer map has exactly the keys q1..q8, each holding the posted value or "" when the field is absent |
| ScoreView.BuildAnswersScoresLikePost | prodigius/apps/politics/views.py:24-25 | Scoring the built map gives the same coordinate as scoring the posted form itself |
| ScoreView.BuildAnswersKeepsCompleteForm | prodigius/apps/politics/tests/test_score_view.py:70-74 | A form with exactly the fields q1..q8 is stored unchanged |
| ScoreView.EmptyPostAtOrigin | prodigius/apps/politics/tests/test_score_view.py:86-103 | An empty form scores as the origin |
| ScoreView.SqDist | prodigius/apps/politics/views.py:28-29 | The squared distance is never negative |
| ScoreView.SquaredDistanceOrdersLikeDistance | prodigius/apps/politics/views.py:28-31 | For two points whose Euclidean distances to (x, y) are r1 and r2: r1 <= r2 if and only if the first point's sort key is at most the second's, so sorting by the key is sorting by distance |
| ScoreView.DistanceKey | prodigius/apps/politics/views.py:28-31 | The sort key `key=dist`, as squared distance to (x, y): never negative, and 0 at the point itself |
| KeySort.Insert | prodigius/apps/politics/views.py:31 | One insertion step keeps every item: result multiset = input multiset plus the new item |
| KeySort.InsertSorted | prodigius/apps/politics/views.py:31 | Inserting into a sorted sequence keeps it sorted |
| KeySort.InsertTies | prodigius/apps/politics/views.py:31 | Insertion puts the new item at the head of its tie group and leaves every other tie group unchanged |
| KeySort.SortBy | prodigius/apps/politics/views.py:31 | The sort returns a permutation of its input in non-decreasing key order, and every tie group in input order (stability) |
| KeySort.SortByIsUnique | prodigius/apps/politics/views.py:31 | Any sorted sequence whose tie groups all equal the input's is the sort's result, so the stable order is unique |
| KeySort.SortedWithSameTiesAreEqual | prodigius/apps/politics/views.py:31 | Two sorted sequences with equal tie groups are equal |
| KeySort.SortByOfDistinctKeys | prodigius/apps/politics/views.py:31 | A strictly increasing rearrangement of the input is the sort's result |
| KeySort.SortByKeepsEqualKeysInOrder | prodigius/apps/politics/views.py:31 | Items that all share one key come out in input order |
| KeySort.SmallestK | prodigius/apps/politics/views.py:31 | sorted(...)[:k] has min(k, n) items, in key order, drawn from the input without repetition beyond the input's own, with every left-out item's key at least every kept item's key, and every tie group a prefix of the input's |
| KeySort.PrefixLeavesFarther | prodigius/apps/politics/views.py:31 | What a sorted prefix leaves behind is exactly the rest of the sequence, and none of it is smaller than a kept item |
| ScoreView.Nearest | prodigius/apps/politics/views.py:28-31 | The selection has min(k, catalog size) points, in non-decreasing distance, all from the catalog, no left-out point nearer than a kept one, ties in catalog order |
| ScoreView.NearestOfDistinctDistances | prodigius/apps/politics/views.py:28-31 | When the points have pairwise distinct distances, the k nearest are the first k of the unique order by distance |
| ScoreView.NearestOfEqualDistances | prodigius/apps/politics/views.py:28-31 | When all points lie at one distance, the k nearest are the first k in catalog order |
| ScoreView.Score | prodigius/apps/politics/views.py:23-32 | The stored submission holds the built answer map and the coordinate of the form, and that same coordinate, within [-1, 1]², is the one the min(3, n) nearest points are chosen against |
| ScoreView.OriginKeys | prodigius/apps/politics/tests/test_score_view.py:105-111 | Squared distances of the five test points from the origin |
| ScoreView.NearestToOrigin | prodigius/apps/politics/tests/test_score_view.py:86-114 | From the origin the nearest three of the test catalog are Far-2, Near-3, Near-2 |
| ScoreView.AllAnswersAKeys | prodigius/apps/politics/tests/test_score_view.py:33-39 | Squared distances of the five test points from (-1.0, 2.28/2.6) |
| ScoreView.AllAnswersANearest | prodigius/apps/politics/tests/test_score_view.py:46-84 | From the all-"A" coordinate the nearest three are Near-1, Near-2, Near-3 in that order |
| ScoreView.TieKeepsCatalogOrder | prodigius/apps/politics/views.py:31 | Of two points at equal distance, the one listed first is kept, in either catalog order |

## Left out

- Django request handling: reading `request.POST`, rendering the result
  template, and the 400 response for GET (views.py:32-36). The model takes the
  posted form as a `map<string, string>`.
- `IndexView`, `TakeView`, URL routing, the admin, and the question and choice
  tables that `TakeView` reads. These are framework plumbing with no logic of
  their own.
- Persistence. `TestSubmission.objects.create` (views.py:26) is modelled as
  the returned `Submission` record (answers, x, y). Database identity,
  durability and timestamps are not modelled.
- The politician catalog query (`Politician.objects.all()`). The catalog is a
  parameter in database order.
- IEEE-754 floating point. Arithmetic is exact over `real`, so rounding
  differences (which the tests absorb with `assertAlmostEqual`) are not
  modelled.
- ScoreView.SqDist: models the squared distance instead of `math.hypot`, whose
  square root has no counterpart over `real`. SquaredDistanceOrdersLikeDistance
  shows the ordering, and hence the selection, is the same.
- Scoring.ScoreAnswer: requires the question to have a row in the table. The
  source raises `KeyError` there, and `compute_coords` only asks for 1..8.
- The mutation of the module-level `Q_AXIS` dictionary that the tests perform
  is expressed as a table value `QAxis[99 := …]`, not as shared mutable state.
