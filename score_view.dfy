/**
 The scoring request: build the answer map from the posted form, compute the
 coordinate, record the submission, and pick the three reference points
 ("politicians") closest to the coordinate.

 The selection is Python's `sorted(points, key=distance)[:3]`: a stable sort
 by Euclidean distance followed by a prefix. Distances are compared through
 their squares, which order points exactly as the distances themselves do
 (SquaredDistanceOrdersLikeDistance).
 */
module ScoreView {
  import opened Scoring
  import opened KeySort

  /** A reference point of the catalog. */
  datatype Politician = Politician(name: string, x: real, y: real, blurb: string)

  /** The record stored for one scoring request: the answer map and the
      coordinate computed from it. */
  datatype Submission = Submission(answers: map<string, string>, x: real, y: real)

  function Min(a: nat, b: nat): nat
  {
    if a < b then a else b
  }

  // ---------------------------------------------------------------------------
  // Answer map

  /** The answer map of a posted form: exactly the keys q1..q8, each holding
      the posted value or "" when the form has no such field. */
  function BuildAnswers(post: map<string, string>): (answers: map<string, string>)
    ensures answers.Keys == QuestionKeys()
    ensures forall q :: 1 <= q <= QuestionCount ==> answers[Key(q)] == ChoiceOf(post, q)
  {
    map q | 1 <= q <= QuestionCount :: Key(q) := ChoiceOf(post, q)
  }

  /** Scoring the built map is scoring the form itself: the scorer reads the
      same label for every question either way. */
  lemma BuildAnswersScoresLikePost(t: AxisTable, post: map<string, string>)
    requires Covers(t)
    ensures Coords(t, BuildAnswers(post)) == Coords(t, post)
  {
    CoordsReadOnlyChoices(t, BuildAnswers(post), post);
  }

  /** A form that holds exactly the fields q1..q8 is stored unchanged. */
  lemma BuildAnswersKeepsCompleteForm(post: map<string, string>)
    requires post.Keys == QuestionKeys()
    ensures BuildAnswers(post) == post
  {
    var answers := BuildAnswers(post);
    forall k | k in post ensures answers[k] == post[k] {
      var q :| 1 <= q <= QuestionCount && k == Key(q);
    }
  }

  /** An empty form scores as the origin. */
  lemma EmptyPostAtOrigin()
    ensures Coords(QAxis, BuildAnswers(map[])) == Coordinate(0.0, 0.0)
  {
    QAxisPositive();
    BuildAnswersScoresLikePost(QAxis, map[]);
    EmptyAnswersAtOrigin(QAxis);
  }

  // ---------------------------------------------------------------------------
  // Distance

  /** Squared Euclidean distance from a point to (x, y). */
  function SqDist(p: Politician, x: real, y: real): (d: real)
    ensures 0.0 <= d
  {
    var dx, dy := p.x - x, p.y - y;
    SquareNonNegative(dx);
    SquareNonNegative(dy);
    dx * dx + dy * dy
  }

  lemma SquareNonNegative(a: real)
    ensures 0.0 <= a * a
  {
  }

  lemma SquareMonotone(a: real, b: real)
    requires 0.0 <= a <= b
    ensures a * a <= b * b
  {
  }

  lemma SquareStrictlyMonotone(a: real, b: real)
    requires 0.0 <= a < b
    ensures a * a < b * b
  {
    var e := b - a;
    assert b * b == (a + e) * (a + e) == a * a + 2.0 * a * e + e * e;
    assert e * e > 0.0;
    assert a * e >= 0.0;
  }

  /** For two points whose Euclidean distances to (x, y) are r1 and r2 (the
      non-negative roots of their squared distances), p1 is no farther than p2
      exactly when its sort key is no larger: ordering by the key is ordering
      by distance. */
  lemma SquaredDistanceOrdersLikeDistance(p1: Politician, p2: Politician, x: real, y: real, r1: real, r2: real)
    requires 0.0 <= r1 && 0.0 <= r2
    requires r1 * r1 == SqDist(p1, x, y) && r2 * r2 == SqDist(p2, x, y)
    ensures r1 <= r2 <==> DistanceKey(x, y)(p1) <= DistanceKey(x, y)(p2)
  {
    if r1 <= r2 {
      SquareMonotone(r1, r2);
    } else {
      SquareStrictlyMonotone(r2, r1);
    }
  }

  /** The sort key: squared distance to (x, y). */
  function DistanceKey(x: real, y: real): (key: Politician -> real)
    ensures forall p: Politician :: 0.0 <= key(p)
    ensures forall p: Politician :: p.x == x && p.y == y ==> key(p) == 0.0
  {
    p => SqDist(p, x, y)
  }

  // ---------------------------------------------------------------------------
  // Nearest k

  /** The first k points of the catalog by distance to (x, y), ties in
      catalog order; fewer when the catalog is shorter than k. */
  function Nearest(catalog: seq<Politician>, x: real, y: real, k: nat): (r: seq<Politician>)
    ensures |r| == Min(k, |catalog|)
    ensures Sorted(r, DistanceKey(x, y))
    ensures multiset(r) <= multiset(catalog)
    ensures forall p, i | p in multiset(catalog) - multiset(r) && 0 <= i < |r|
              :: DistanceKey(x, y)(r[i]) <= DistanceKey(x, y)(p)
    ensures forall d :: Ties(r, DistanceKey(x, y), d) <= Ties(catalog, DistanceKey(x, y), d)
  {
    SmallestK(catalog, DistanceKey(x, y), k)
  }

  /** When no two points of the catalog lie at the same distance, the k
      nearest are the first k of the unique ordering by distance. */
  lemma NearestOfDistinctDistances(catalog: seq<Politician>, x: real, y: real, k: nat, r: seq<Politician>)
    requires StrictlySorted(r, DistanceKey(x, y)) && multiset(r) == multiset(catalog) && k <= |r|
    ensures Nearest(catalog, x, y, k) == r[..k]
  {
    SortByOfDistinctKeys(catalog, r, DistanceKey(x, y));
    assert |r| == |multiset(catalog)| == |catalog|;
  }

  /** Points all at one distance from (x, y) are returned in catalog order:
      the selection inherits the stability of the sort. */
  lemma NearestOfEqualDistances(catalog: seq<Politician>, x: real, y: real, k: nat, d: real)
    requires forall i | 0 <= i < |catalog| :: DistanceKey(x, y)(catalog[i]) == d
    ensures Nearest(catalog, x, y, k) == catalog[..Min(k, |catalog|)]
  {
    SortByKeepsEqualKeysInOrder(catalog, DistanceKey(x, y), d);
  }

  // ---------------------------------------------------------------------------
  // The request

  /** One scoring request: the stored submission carries the built answer map
      and the coordinate computed from it, and the same coordinate is the one
      the three nearest points are chosen against. */
  method Score(post: map<string, string>, catalog: seq<Politician>)
    returns (submission: Submission, nearest: seq<Politician>, x: real, y: real)
    ensures submission == Submission(BuildAnswers(post), x, y)
    ensures Coordinate(x, y) == Coords(QAxis, post)
    ensures -1.0 <= x <= 1.0 && -1.0 <= y <= 1.0
    ensures nearest == Nearest(catalog, x, y, 3)
    ensures |nearest| == Min(3, |catalog|)
  {
    QAxisPositive();
    var answers := BuildAnswers(post);
    x, y := ComputeCoords(QAxis, answers);
    BuildAnswersScoresLikePost(QAxis, post);
    submission := Submission(answers, x, y);
    nearest := Nearest(catalog, x, y, 3);
  }

  // ---------------------------------------------------------------------------
  // Worked examples

  const Near1 := Politician("Near-1", -1.0, 0.9, "")
  const Near2 := Politician("Near-2", -0.9, 0.9, "")
  const Near3 := Politician("Near-3", -1.0, 0.7, "")
  const Far1 := Politician("Far-1", 1.0, -1.0, "")
  const Far2 := Politician("Far-2", 0.5, 0.0, "")

  /** The reference catalog of the scenarios, in catalog order. */
  const Catalog := [Near1, Near2, Near3, Far1, Far2]

  /** Squared distances from the origin: Far-2 0.25, Near-3 1.49, Near-2 1.62,
      Near-1 1.81, Far-1 2.0. */
  lemma OriginKeys()
    ensures var key := DistanceKey(0.0, 0.0);
      && key(Near1) == 1.81 && key(Near2) == 1.62 && key(Near3) == 1.49
      && key(Far1) == 2.0 && key(Far2) == 0.25
  {
  }

  /** From the origin the three nearest are Far-2, Near-3 and Near-2. */
  lemma NearestToOrigin()
    ensures Nearest(Catalog, 0.0, 0.0, 3) == [Far2, Near3, Near2]
  {
    var r := [Far2, Near3, Near2, Near1, Far1];
    assert r[..3] == [Far2, Near3, Near2];
    OriginOrder();
    assert multiset(r) == multiset(Catalog);
    NearestOfDistinctDistances(Catalog, 0.0, 0.0, 3, r);
  }

  lemma OriginOrder()
    ensures StrictlySorted([Far2, Near3, Near2, Near1, Far1], DistanceKey(0.0, 0.0))
  {
    var key := DistanceKey(0.0, 0.0);
    var r := [Far2, Near3, Near2, Near1, Far1];
    OriginKeys();
    assert key(r[0]) < key(r[1]) < key(r[2]) < key(r[3]) < key(r[4]);
    StrictlySortedByNeighbours(r, key);
  }

  /** Squared distances from the all-"A" coordinate (-1.0, 57/65): Near-1
      9/16900, Near-2 178/16900, Near-3 529/16900, then Far-2, then Far-1. */
  lemma AllAnswersAKeys()
    ensures var key := DistanceKey(-1.0, 2.28 / 2.6);
      && key(Near1) == 9.0 / 16900.0 && key(Near2) == 178.0 / 16900.0
      && key(Near3) == 529.0 / 16900.0
      && 529.0 / 16900.0 < key(Far2) < key(Far1)
  {
    assert 2.28 / 2.6 == 57.0 / 65.0;
  }

  /** A form answered "A" throughout lands at (-1.0, 2.28 / 2.6), whose three
      nearest points are Near-1, Near-2 and Near-3, in that order. */
  lemma AllAnswersANearest()
    ensures Nearest(Catalog, -1.0, 2.28 / 2.6, 3) == [Near1, Near2, Near3]
  {
    var r := [Near1, Near2, Near3, Far2, Far1];
    assert r[..3] == [Near1, Near2, Near3];
    AllAnswersAOrder();
    assert multiset(r) == multiset(Catalog);
    NearestOfDistinctDistances(Catalog, -1.0, 2.28 / 2.6, 3, r);
  }

  lemma AllAnswersAOrder()
    ensures StrictlySorted([Near1, Near2, Near3, Far2, Far1], DistanceKey(-1.0, 2.28 / 2.6))
  {
    var key := DistanceKey(-1.0, 2.28 / 2.6);
    var r := [Near1, Near2, Near3, Far2, Far1];
    AllAnswersAKeys();
    assert key(r[0]) < key(r[1]) < key(r[2]) < key(r[3]) < key(r[4]);
    StrictlySortedByNeighbours(r, key);
  }

  const TieUp := Politician("Tie-Up", 0.0, 1.0, "")
  const TieRight := Politician("Tie-Right", 1.0, 0.0, "")

  /** Two points at the same distance from the origin: the one listed first
      is the one kept, whichever it is. */
  lemma TieKeepsCatalogOrder()
    ensures Nearest([TieUp, TieRight], 0.0, 0.0, 1) == [TieUp]
    ensures Nearest([TieRight, TieUp], 0.0, 0.0, 1) == [TieRight]
  {
    TieFirstKept(TieUp, TieRight);
    TieFirstKept(TieRight, TieUp);
  }

  lemma TieFirstKept(first: Politician, second: Politician)
    requires first in {TieUp, TieRight} && second in {TieUp, TieRight}
    ensures Nearest([first, second], 0.0, 0.0, 1) == [first]
  {
    var c := [first, second];
    assert DistanceKey(0.0, 0.0)(c[0]) == 1.0 && DistanceKey(0.0, 0.0)(c[1]) == 1.0;
    NearestOfEqualDistances(c, 0.0, 0.0, 1, 1.0);
    assert c[..Min(1, |c|)] == [first];
  }
}
