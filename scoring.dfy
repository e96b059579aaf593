/**
 Per-question scoring and coordinate aggregation of the political quiz.

 A quiz has eight questions, each tied to one of two ideology axes (X or Y)
 with a weight. An answer is a choice label ("A", "B", "Both", or anything
 else). Each answered question adds its score to its axis total and its weight
 to its axis weight sum; the coordinate on an axis is the total divided by the
 weight sum (0.0 when nothing was answered on that axis), clamped to [-1, 1].

 Weights and scores are exact reals: every constant of the quiz (1.0, 0.8,
 0.6, 0.3) is a rational number.
 */
module Scoring {

  datatype Axis = X | Y

  /** One row of the axis table: which axis a question moves, and how much. */
  datatype AxisWeight = AxisWeight(axis: Axis, weight: real)

  /** Question number to (axis, weight). */
  type AxisTable = map<int, AxisWeight>

  /** The quiz as shipped: questions 1, 2, 4, 5, 7 on X; 3, 6, 8 on Y. */
  const QAxis: AxisTable := map[
    1 := AxisWeight(X, 1.0),
    2 := AxisWeight(X, 1.0),
    3 := AxisWeight(Y, 1.0),
    4 := AxisWeight(X, 1.0),
    5 := AxisWeight(X, 0.8),
    6 := AxisWeight(Y, 0.8),
    7 := AxisWeight(X, 0.8),
    8 := AxisWeight(Y, 0.8)
  ]

  /** The question numbers the coordinate computation walks, 1 to 8. */
  const QuestionCount: nat := 8

  lemma QAxisShape()
    ensures forall q :: q in QAxis <==> 1 <= q <= QuestionCount
    ensures forall q | q in QAxis :: QAxis[q].weight == 1.0 || QAxis[q].weight == 0.8
    ensures forall q | q in QAxis :: QAxis[q].axis == X <==> q in {1, 2, 4, 5, 7}
  {
  }

  // ---------------------------------------------------------------------------
  // Per-question score

  /** The labels the scorer distinguishes; every other string (including
      "Neither", "C" and "") is Unrecognised. */
  datatype Label = A | B | Both | Unrecognised

  function LabelOf(choice: string): (lab: Label)
    ensures lab == A <==> choice == "A"
    ensures lab == B <==> choice == "B"
    ensures lab == Both <==> choice == "Both"
    ensures choice == "Neither" || choice == "" ==> lab == Unrecognised
  {
    if choice == "A" then A
    else if choice == "B" then B
    else if choice == "Both" then Both
    else Unrecognised
  }

  /** The three scoring tiers, the Y tier split by question number. */
  datatype Rule = XLinear | YSymmetric | YConvergent | YFallback

  function RuleOf(t: AxisTable, q: int): (rule: Rule)
    requires q in t
    ensures rule == XLinear <==> t[q].axis == X
    ensures rule == YSymmetric <==> t[q].axis != X && (q == 3 || q == 6)
    ensures rule == YConvergent <==> t[q].axis != X && q == 8
    ensures rule == YFallback <==> t[q].axis != X && q != 3 && q != 6 && q != 8
  {
    if t[q].axis == X then XLinear
    else if q == 3 || q == 6 then YSymmetric
    else if q == 8 then YConvergent
    else YFallback
  }

  /** The response curve of each rule as an explicit table: the score of a
      label is this multiplier times the question's weight. */
  function Multiplier(rule: Rule, lab: Label): (m: real)
  {
    match (rule, lab)
    case (XLinear, A) => -1.0
    case (XLinear, B) => 1.0
    case (XLinear, _) => 0.0
    case (YConvergent, A) => 0.6
    case (YConvergent, B) => 0.6
    case (YConvergent, Both) => 1.0
    case (YConvergent, _) => 0.0
    case (_, A) => 1.0
    case (_, B) => -1.0
    case (_, Both) => 0.3
    case (_, Unrecognised) => 0.0
  }

  lemma MultiplierInUnitInterval(rule: Rule, lab: Label)
    ensures -1.0 <= Multiplier(rule, lab) <= 1.0
    ensures lab == Unrecognised ==> Multiplier(rule, lab) == 0.0
  {
  }

  /** The fallback Y rule, used for every Y question other than 3, 6 and 8,
      has the same curve as the rule of questions 3 and 6. */
  lemma FallbackIsSymmetric(lab: Label)
    ensures Multiplier(YFallback, lab) == Multiplier(YSymmetric, lab)
  {
  }

  /** Score of one answered question, with the source's three-tier dispatch:
      the X rule, then the Y special cases 3/6 and 8, then the Y fallback. */
  function ScoreAnswer(t: AxisTable, q: int, choice: string): (r: real)
    requires q in t
    ensures r == Multiplier(RuleOf(t, q), LabelOf(choice)) * t[q].weight
    ensures 0.0 <= t[q].weight ==> -t[q].weight <= r <= t[q].weight
    ensures LabelOf(choice) == Unrecognised ==> r == 0.0
  {
    var weight := t[q].weight;
    MultiplierInUnitInterval(RuleOf(t, q), LabelOf(choice));
    if t[q].axis == X then
      if choice == "A" then -1.0 * weight
      else if choice == "B" then 1.0 * weight
      else 0.0
    else if q == 3 || q == 6 then
      if choice == "A" then 1.0 * weight
      else if choice == "B" then -1.0 * weight
      else if choice == "Both" then 0.3 * weight
      else 0.0
    else if q == 8 then
      if choice == "A" then 0.6 * weight
      else if choice == "B" then 0.6 * weight
      else if choice == "Both" then 1.0 * weight
      else 0.0
    else
      if choice == "A" then 1.0 * weight
      else if choice == "B" then -1.0 * weight
      else if choice == "Both" then 0.3 * weight
      else 0.0
  }

  /** X questions: "A" is -weight, "B" is +weight, every other label 0. */
  lemma XAxisScores(t: AxisTable, q: int)
    requires q in t && t[q].axis == X
    ensures ScoreAnswer(t, q, "A") == -t[q].weight
    ensures ScoreAnswer(t, q, "B") == t[q].weight
    ensures forall c :: c != "A" && c != "B" ==> ScoreAnswer(t, q, c) == 0.0
  {
  }

  /** Y questions 3 and 6: "A" is +weight, "B" is -weight, "Both" is 0.3 weight. */
  lemma SymmetricYScores(t: AxisTable, q: int)
    requires q in t && t[q].axis == Y && (q == 3 || q == 6)
    ensures ScoreAnswer(t, q, "A") == t[q].weight
    ensures ScoreAnswer(t, q, "B") == -t[q].weight
    ensures ScoreAnswer(t, q, "Both") == 0.3 * t[q].weight
    ensures forall c :: LabelOf(c) == Unrecognised ==> ScoreAnswer(t, q, c) == 0.0
  {
  }

  /** Y question 8: "A" and "B" both 0.6 weight, "Both" the full weight. */
  lemma ConvergentYScores(t: AxisTable)
    requires 8 in t && t[8].axis == Y
    ensures ScoreAnswer(t, 8, "A") == 0.6 * t[8].weight
    ensures ScoreAnswer(t, 8, "B") == 0.6 * t[8].weight
    ensures ScoreAnswer(t, 8, "Both") == t[8].weight
    ensures forall c :: LabelOf(c) == Unrecognised ==> ScoreAnswer(t, 8, c) == 0.0
  {
  }

  /** Any other Y question falls back to the curve of questions 3 and 6. */
  lemma FallbackYScores(t: AxisTable, q: int)
    requires q in t && t[q].axis == Y && q != 3 && q != 6 && q != 8
    ensures forall c :: ScoreAnswer(t, q, c) == Multiplier(YSymmetric, LabelOf(c)) * t[q].weight
  {
  }

  /** A Y question 99 of weight 2.0 added to the table scores A=2.0, B=-2.0,
      Both=0.6 and C=0. */
  lemma InjectedQuestionScores()
    ensures var t := QAxis[99 := AxisWeight(Y, 2.0)];
      && ScoreAnswer(t, 99, "A") == 2.0
      && ScoreAnswer(t, 99, "B") == -2.0
      && ScoreAnswer(t, 99, "Both") == 0.6
      && ScoreAnswer(t, 99, "C") == 0.0
  {
  }

  // ---------------------------------------------------------------------------
  // Coordinate aggregation

  /** The answer key of question q: "q1" .. "q9". */
  function Key(q: int): (k: string)
    requires 1 <= q <= 9
    ensures |k| == 2 && k[0] == 'q' && k[1] as int - '0' as int == q
  {
    "q" + [('0' as int + q) as char]
  }

  lemma KeyInjective(p: int, q: int)
    requires 1 <= p <= 9 && 1 <= q <= 9
    ensures Key(p) == Key(q) <==> p == q
  {
    if Key(p) == Key(q) {
      assert Key(p)[1] == Key(q)[1];
    }
  }

  lemma KeySpelling()
    ensures Key(1) == "q1" && Key(2) == "q2" && Key(3) == "q3" && Key(4) == "q4"
    ensures Key(5) == "q5" && Key(6) == "q6" && Key(7) == "q7" && Key(8) == "q8"
  {
  }

  /** The keys the scorer reads. */
  function QuestionKeys(): (keys: set<string>)
    ensures forall q :: 1 <= q <= QuestionCount ==> Key(q) in keys
    ensures forall k :: k in keys ==> exists q :: 1 <= q <= QuestionCount && k == Key(q)
    ensures keys == {"q1", "q2", "q3", "q4", "q5", "q6", "q7", "q8"}
  {
    var keys := set q | 1 <= q <= QuestionCount :: Key(q);
    KeySpelling();
    forall k | k in keys ensures k in {"q1", "q2", "q3", "q4", "q5", "q6", "q7", "q8"} {
      var q :| 1 <= q <= QuestionCount && k == Key(q);
    }
    assert Key(1) in keys && Key(2) in keys && Key(3) in keys && Key(4) in keys;
    assert Key(5) in keys && Key(6) in keys && Key(7) in keys && Key(8) in keys;
    keys
  }

  /** A question counts as answered when its key is present with a non-empty
      label; a missing key and an empty label are both skipped. */
  predicate Answered(answers: map<string, string>, q: int)
    requires 1 <= q <= 9
    ensures Answered(answers, q) <==> ChoiceOf(answers, q) != ""
  {
    Key(q) in answers && answers[Key(q)] != ""
  }

  /** The label of question q, with a missing key read as "". */
  function ChoiceOf(answers: map<string, string>, q: int): (choice: string)
    requires 1 <= q <= 9
    ensures Key(q) !in answers ==> choice == ""
    ensures choice != "" ==> Key(q) in answers && answers[Key(q)] == choice
  {
    if Key(q) in answers then answers[Key(q)] else ""
  }

  /** Every question 1..8 has a row in the table. */
  predicate Covers(t: AxisTable)
  {
    forall q :: 1 <= q <= QuestionCount ==> q in t
  }

  /** Every question 1..8 has a row with a non-negative weight. */
  predicate NonNegativeWeights(t: AxisTable)
  {
    forall q :: 1 <= q <= QuestionCount ==> q in t && t[q].weight >= 0.0
  }

  /** Every question 1..8 has a row with a positive weight. */
  predicate PositiveWeights(t: AxisTable)
  {
    forall q :: 1 <= q <= QuestionCount ==> q in t && t[q].weight > 0.0
  }

  lemma QAxisPositive()
    ensures Covers(QAxis) && PositiveWeights(QAxis) && NonNegativeWeights(QAxis)
  {
  }

  /** The four running sums of the aggregation loop. */
  datatype Totals = Totals(xTotal: real, yTotal: real, xWeight: real, yWeight: real)

  /** The running sums after questions 1..n. A weight sum only ever grows by
      a question's weight, so it is never negative when no weight is. */
  function Accumulate(t: AxisTable, answers: map<string, string>, n: nat): (acc: Totals)
    requires Covers(t) && n <= QuestionCount
    ensures NonNegativeWeights(t) ==> 0.0 <= acc.xWeight && 0.0 <= acc.yWeight
  {
    if n == 0 then Totals(0.0, 0.0, 0.0, 0.0)
    else
      var acc := Accumulate(t, answers, n - 1);
      if !Answered(answers, n) then acc
      else
        var delta := ScoreAnswer(t, n, answers[Key(n)]);
        if t[n].axis == X then
          acc.(xTotal := acc.xTotal + delta, xWeight := acc.xWeight + t[n].weight)
        else
          acc.(yTotal := acc.yTotal + delta, yWeight := acc.yWeight + t[n].weight)
  }

  /** total / weight, and 0.0 when the weight sum is zero. */
  function Average(total: real, weight: real): (avg: real)
    ensures weight == 0.0 ==> avg == 0.0
    ensures weight != 0.0 ==> avg * weight == total
  {
    if weight != 0.0 then total / weight else 0.0
  }

  /** max(-1.0, min(1.0, v)). */
  function Clamp(v: real): (r: real)
    ensures -1.0 <= r <= 1.0
    ensures -1.0 <= v <= 1.0 ==> r == v
    ensures v < -1.0 ==> r == -1.0
    ensures 1.0 < v ==> r == 1.0
  {
    var upper := if 1.0 < v then 1.0 else v;
    if upper < -1.0 then -1.0 else upper
  }

  datatype Coordinate = Coordinate(x: real, y: real)

  /** The coordinate of an answer map: per-axis average, clamped. */
  function Coords(t: AxisTable, answers: map<string, string>): (c: Coordinate)
    requires Covers(t)
    ensures -1.0 <= c.x <= 1.0 && -1.0 <= c.y <= 1.0
    ensures Accumulate(t, answers, QuestionCount).xWeight == 0.0 ==> c.x == 0.0
    ensures Accumulate(t, answers, QuestionCount).yWeight == 0.0 ==> c.y == 0.0
  {
    var acc := Accumulate(t, answers, QuestionCount);
    Coordinate(Clamp(Average(acc.xTotal, acc.xWeight)), Clamp(Average(acc.yTotal, acc.yWeight)))
  }

  /** The aggregation loop: walks questions 1..8, skips unanswered ones, sums
      scores and weights per axis, then divides and clamps. */
  method ComputeCoords(t: AxisTable, answers: map<string, string>) returns (x: real, y: real)
    requires Covers(t)
    ensures Coordinate(x, y) == Coords(t, answers)
    ensures -1.0 <= x <= 1.0 && -1.0 <= y <= 1.0
  {
    var xTotal, yTotal := 0.0, 0.0;
    var xWeight, yWeight := 0.0, 0.0;
    for q := 1 to QuestionCount + 1
      invariant Totals(xTotal, yTotal, xWeight, yWeight) == Accumulate(t, answers, q - 1)
    {
      var choice := ChoiceOf(answers, q);
      if choice == "" {
        continue;
      }
      var row := t[q];
      var delta := ScoreAnswer(t, q, choice);
      if row.axis == X {
        xTotal := xTotal + delta;
        xWeight := xWeight + row.weight;
      } else {
        yTotal := yTotal + delta;
        yWeight := yWeight + row.weight;
      }
    }
    x := if xWeight != 0.0 then xTotal / xWeight else 0.0;
    y := if yWeight != 0.0 then yTotal / yWeight else 0.0;
    x := Clamp(x);
    y := Clamp(y);
  }

  // ---------------------------------------------------------------------------
  // Properties of the aggregation

  /** With non-negative weights, each axis total lies within plus or minus
      its weight sum. */
  lemma {:induction false} AccumulateBounded(t: AxisTable, answers: map<string, string>, n: nat)
    requires NonNegativeWeights(t) && n <= QuestionCount
    ensures var acc := Accumulate(t, answers, n);
      && 0.0 <= acc.xWeight && -acc.xWeight <= acc.xTotal <= acc.xWeight
      && 0.0 <= acc.yWeight && -acc.yWeight <= acc.yTotal <= acc.yWeight
  {
    if n > 0 {
      AccumulateBounded(t, answers, n - 1);
    }
  }

  lemma AverageOfBoundedTotal(total: real, weight: real)
    requires 0.0 <= weight && -weight <= total <= weight
    ensures -1.0 <= Average(total, weight) <= 1.0
  {
    if weight != 0.0 {
      var avg := Average(total, weight);
      assert (avg - 1.0) * weight == total - weight;
      assert (-1.0 - avg) * weight == -total - weight;
      NonPositiveFactor(avg - 1.0, weight);
      NonPositiveFactor(-1.0 - avg, weight);
    }
  }

  lemma NonPositiveFactor(a: real, w: real)
    requires 0.0 < w && a * w <= 0.0
    ensures a <= 0.0
  {
  }

  /** With non-negative weights the per-axis averages already lie in [-1, 1],
      so the final clamp never changes them. */
  lemma ClampNeverBinds(t: AxisTable, answers: map<string, string>)
    requires NonNegativeWeights(t)
    ensures var acc := Accumulate(t, answers, QuestionCount);
      && Coords(t, answers).x == Average(acc.xTotal, acc.xWeight)
      && Coords(t, answers).y == Average(acc.yTotal, acc.yWeight)
  {
    var acc := Accumulate(t, answers, QuestionCount);
    AccumulateBounded(t, answers, QuestionCount);
    AverageOfBoundedTotal(acc.xTotal, acc.xWeight);
    AverageOfBoundedTotal(acc.yTotal, acc.yWeight);
  }

  /** With positive weights, an axis weight sum is zero exactly when no
      question of that axis among 1..n is answered. */
  lemma {:induction false} WeightZeroIffUnanswered(t: AxisTable, answers: map<string, string>, n: nat)
    requires PositiveWeights(t) && n <= QuestionCount
    ensures Accumulate(t, answers, n).xWeight == 0.0
        <==> forall q :: 1 <= q <= n && Answered(answers, q) ==> t[q].axis != X
    ensures Accumulate(t, answers, n).yWeight == 0.0
        <==> forall q :: 1 <= q <= n && Answered(answers, q) ==> t[q].axis != Y
  {
    if n > 0 {
      WeightZeroIffUnanswered(t, answers, n - 1);
      AccumulateBounded(t, answers, n - 1);
    }
  }

  /** An axis none of whose questions is answered sits at exactly 0.0,
      whatever the answers on the other axis. */
  lemma UnansweredAxisIsZero(t: AxisTable, answers: map<string, string>)
    requires PositiveWeights(t)
    ensures (forall q :: 1 <= q <= QuestionCount && Answered(answers, q) ==> t[q].axis != X)
        ==> Coords(t, answers).x == 0.0
    ensures (forall q :: 1 <= q <= QuestionCount && Answered(answers, q) ==> t[q].axis != Y)
        ==> Coords(t, answers).y == 0.0
  {
    WeightZeroIffUnanswered(t, answers, QuestionCount);
  }

  /** The running sums depend only on the label read for each of q1..qn,
      with a missing key read as "". */
  lemma {:induction false} AccumulateReadsOnlyChoices(t: AxisTable, a1: map<string, string>, a2: map<string, string>, n: nat)
    requires Covers(t) && n <= QuestionCount
    requires forall q :: 1 <= q <= n ==> ChoiceOf(a1, q) == ChoiceOf(a2, q)
    ensures Accumulate(t, a1, n) == Accumulate(t, a2, n)
  {
    if n > 0 {
      AccumulateReadsOnlyChoices(t, a1, a2, n - 1);
      assert ChoiceOf(a1, n) == ChoiceOf(a2, n);
    }
  }

  /** Two answer maps that agree on the labels of q1..q8 (a missing key read
      as "") get the same coordinate. */
  lemma CoordsReadOnlyChoices(t: AxisTable, a1: map<string, string>, a2: map<string, string>)
    requires Covers(t)
    requires forall q :: 1 <= q <= QuestionCount ==> ChoiceOf(a1, q) == ChoiceOf(a2, q)
    ensures Coords(t, a1) == Coords(t, a2)
  {
    AccumulateReadsOnlyChoices(t, a1, a2, QuestionCount);
  }

  /** A missing answer and an empty answer are the same. */
  lemma MissingSameAsEmpty(t: AxisTable, answers: map<string, string>, q: int)
    requires Covers(t) && 1 <= q <= QuestionCount
    ensures Coords(t, answers[Key(q) := ""]) == Coords(t, answers - {Key(q)})
  {
    forall p | 1 <= p <= QuestionCount
      ensures ChoiceOf(answers[Key(q) := ""], p) == ChoiceOf(answers - {Key(q)}, p)
    {
      KeyInjective(p, q);
    }
    CoordsReadOnlyChoices(t, answers[Key(q) := ""], answers - {Key(q)});
  }

  /** Keys other than q1..q8 have no effect. */
  lemma OtherKeysIgnored(t: AxisTable, answers: map<string, string>, k: string, v: string)
    requires Covers(t) && k !in QuestionKeys()
    ensures Coords(t, answers[k := v]) == Coords(t, answers)
  {
    forall p | 1 <= p <= QuestionCount
      ensures ChoiceOf(answers[k := v], p) == ChoiceOf(answers, p)
    {
      assert Key(p) in QuestionKeys();
    }
    CoordsReadOnlyChoices(t, answers[k := v], answers);
  }

  /** The empty answer map scores as the origin. */
  lemma EmptyAnswersAtOrigin(t: AxisTable)
    requires Covers(t)
    ensures Coords(t, map[]) == Coordinate(0.0, 0.0)
  {
    AccumulateNothingAnswered(t, map[], QuestionCount);
  }

  lemma {:induction false} AccumulateNothingAnswered(t: AxisTable, answers: map<string, string>, n: nat)
    requires Covers(t) && n <= QuestionCount
    requires forall q :: 1 <= q <= n ==> !Answered(answers, q)
    ensures Accumulate(t, answers, n) == Totals(0.0, 0.0, 0.0, 0.0)
  {
    if n > 0 {
      AccumulateNothingAnswered(t, answers, n - 1);
    }
  }

  // ---------------------------------------------------------------------------
  // Worked examples of the shipped table

  /** Every question answered "A": x = -1.0 and y = 2.28 / 2.6. */
  lemma AllAnswersA()
    ensures Coords(QAxis, map["q1" := "A", "q2" := "A", "q3" := "A", "q4" := "A",
                              "q5" := "A", "q6" := "A", "q7" := "A", "q8" := "A"])
         == Coordinate(-1.0, 2.28 / 2.6)
  {
    var a := map["q1" := "A", "q2" := "A", "q3" := "A", "q4" := "A",
                 "q5" := "A", "q6" := "A", "q7" := "A", "q8" := "A"];
    KeySpelling();
    assert Accumulate(QAxis, a, 1) == Totals(-1.0, 0.0, 1.0, 0.0);
    assert Accumulate(QAxis, a, 2) == Totals(-2.0, 0.0, 2.0, 0.0);
    assert Accumulate(QAxis, a, 3) == Totals(-2.0, 1.0, 2.0, 1.0);
    assert Accumulate(QAxis, a, 4) == Totals(-3.0, 1.0, 3.0, 1.0);
    assert Accumulate(QAxis, a, 5) == Totals(-3.8, 1.0, 3.8, 1.0);
    assert Accumulate(QAxis, a, 6) == Totals(-3.8, 1.8, 3.8, 1.8);
    assert Accumulate(QAxis, a, 7) == Totals(-4.6, 1.8, 4.6, 1.8);
    assert Accumulate(QAxis, a, 8) == Totals(-4.6, 2.28, 4.6, 2.6);
  }

  /** Every question answered "B": x = 1.0 and y = -1.32 / 2.6. */
  lemma AllAnswersB()
    ensures Coords(QAxis, map["q1" := "B", "q2" := "B", "q3" := "B", "q4" := "B",
                              "q5" := "B", "q6" := "B", "q7" := "B", "q8" := "B"])
         == Coordinate(1.0, -1.32 / 2.6)
  {
    var a := map["q1" := "B", "q2" := "B", "q3" := "B", "q4" := "B",
                 "q5" := "B", "q6" := "B", "q7" := "B", "q8" := "B"];
    KeySpelling();
    assert Accumulate(QAxis, a, 1) == Totals(1.0, 0.0, 1.0, 0.0);
    assert Accumulate(QAxis, a, 2) == Totals(2.0, 0.0, 2.0, 0.0);
    assert Accumulate(QAxis, a, 3) == Totals(2.0, -1.0, 2.0, 1.0);
    assert Accumulate(QAxis, a, 4) == Totals(3.0, -1.0, 3.0, 1.0);
    assert Accumulate(QAxis, a, 5) == Totals(3.8, -1.0, 3.8, 1.0);
    assert Accumulate(QAxis, a, 6) == Totals(3.8, -1.8, 3.8, 1.8);
    assert Accumulate(QAxis, a, 7) == Totals(4.6, -1.8, 4.6, 1.8);
    assert Accumulate(QAxis, a, 8) == Totals(4.6, -1.32, 4.6, 2.6);
  }

  /** A present but unrecognised label still counts its weight: with q1 = "C"
      beside q5 = "B" and q3 = "Both", x is 0.8 / 1.8; without q1 it is 1.0. */
  lemma UnrecognisedLabelCountsWeight()
    ensures Coords(QAxis, map["q5" := "B", "q3" := "Both", "q1" := "C"]) == Coordinate(0.8 / 1.8, 0.3)
    ensures Coords(QAxis, map["q5" := "B", "q3" := "Both"]) == Coordinate(1.0, 0.3)
  {
    var a := map["q5" := "B", "q3" := "Both", "q1" := "C"];
    var b := map["q5" := "B", "q3" := "Both"];
    KeySpelling();
    assert Accumulate(QAxis, a, 1) == Totals(0.0, 0.0, 1.0, 0.0);
    assert Accumulate(QAxis, a, 2) == Totals(0.0, 0.0, 1.0, 0.0);
    assert Accumulate(QAxis, a, 3) == Totals(0.0, 0.3, 1.0, 1.0);
    assert Accumulate(QAxis, a, 4) == Totals(0.0, 0.3, 1.0, 1.0);
    assert Accumulate(QAxis, a, 5) == Totals(0.8, 0.3, 1.8, 1.0);
    assert Accumulate(QAxis, a, 6) == Totals(0.8, 0.3, 1.8, 1.0);
    assert Accumulate(QAxis, a, 7) == Totals(0.8, 0.3, 1.8, 1.0);
    assert Accumulate(QAxis, a, 8) == Totals(0.8, 0.3, 1.8, 1.0);
    assert Accumulate(QAxis, b, 1) == Totals(0.0, 0.0, 0.0, 0.0);
    assert Accumulate(QAxis, b, 2) == Totals(0.0, 0.0, 0.0, 0.0);
    assert Accumulate(QAxis, b, 3) == Totals(0.0, 0.3, 0.0, 1.0);
    assert Accumulate(QAxis, b, 4) == Totals(0.0, 0.3, 0.0, 1.0);
    assert Accumulate(QAxis, b, 5) == Totals(0.8, 0.3, 0.8, 1.0);
    assert Accumulate(QAxis, b, 6) == Totals(0.8, 0.3, 0.8, 1.0);
    assert Accumulate(QAxis, b, 7) == Totals(0.8, 0.3, 0.8, 1.0);
    assert Accumulate(QAxis, b, 8) == Totals(0.8, 0.3, 0.8, 1.0);
  }

  /** Only q6 = "A": no X answer, so x = 0.0; y = 0.8 / 0.8 = 1.0. */
  lemma OnlyQuestionSix()
    ensures Coords(QAxis, map["q6" := "A"]) == Coordinate(0.0, 1.0)
  {
    var a := map["q6" := "A"];
    KeySpelling();
    AccumulateNothingAnswered(QAxis, a, 5);
    assert Accumulate(QAxis, a, 6) == Totals(0.0, 0.8, 0.0, 0.8);
    assert Accumulate(QAxis, a, 7) == Totals(0.0, 0.8, 0.0, 0.8);
    assert Accumulate(QAxis, a, 8) == Totals(0.0, 0.8, 0.0, 0.8);
  }

  /** X questions all "B", q3 and q6 "A", q8 "Both": both axes at 1.0. */
  lemma HighestCorner()
    ensures Coords(QAxis, map["q1" := "B", "q2" := "B", "q4" := "B", "q5" := "B", "q7" := "B",
                              "q3" := "A", "q6" := "A", "q8" := "Both"])
         == Coordinate(1.0, 1.0)
  {
    var a := map["q1" := "B", "q2" := "B", "q4" := "B", "q5" := "B", "q7" := "B",
                 "q3" := "A", "q6" := "A", "q8" := "Both"];
    KeySpelling();
    assert Accumulate(QAxis, a, 1) == Totals(1.0, 0.0, 1.0, 0.0);
    assert Accumulate(QAxis, a, 2) == Totals(2.0, 0.0, 2.0, 0.0);
    assert Accumulate(QAxis, a, 3) == Totals(2.0, 1.0, 2.0, 1.0);
    assert Accumulate(QAxis, a, 4) == Totals(3.0, 1.0, 3.0, 1.0);
    assert Accumulate(QAxis, a, 5) == Totals(3.8, 1.0, 3.8, 1.0);
    assert Accumulate(QAxis, a, 6) == Totals(3.8, 1.8, 3.8, 1.8);
    assert Accumulate(QAxis, a, 7) == Totals(4.6, 1.8, 4.6, 1.8);
    assert Accumulate(QAxis, a, 8) == Totals(4.6, 2.6, 4.6, 2.6);
  }
}
