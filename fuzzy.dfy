/**
 * The fuzzy comparer. Every stroke becomes a Pair of two Points (its start
 * and end), and every point counts how many other points lie to its left,
 * to its right or level with it, and likewise vertically. Each drawn point
 * scores each candidate point by how alike their counters are. Drawn pairs
 * are then matched greedily to pairs of candidate points, best score first.
 */
module Fuzzy {
  import opened Wrappers
  import opened StrokeGeometry

  const ScoreMultiNotPair: real := 0.9
  const ScoreMultiWrongDirection: real := 0.97
  const ScoreMultiWrongCount: real := 0.98

  const BestScoresSortFirst: nat := 5
  const SimilarRange: int := 13

  function Max(a: int, b: int): int { if a >= b then a else b }

  function Min(a: int, b: int): int { if a <= b then a else b }

  // ---------------------------------------------------------------------------
  // Points and pairs

  /** Point(x, y): (int) ((v + 0.5f) * 255); the cast truncates, which is a floor on these values. */
  function PointCoordinate(v: Coord): int {
    ((v as real + 0.5) * 255.0).Floor
  }

  /** The cell centre is scaled exactly: no rounding is lost in the cast. */
  lemma PointCoordinateExact(v: Coord)
    ensures PointCoordinate(v) == 255 * v + 127
  {
    assert (v as real + 0.5) * 255.0 == (255 * v + 127) as real + 0.5;
  }

  /**
   * Since scaled coordinates are 255 apart, "within SIMILAR_RANGE" means the
   * same coordinate, and "less" and "more" mean a smaller or larger one.
   */
  lemma SimilarMeansEqual(u: Coord, v: Coord)
    ensures PointCoordinate(u) < PointCoordinate(v) - SimilarRange <==> u < v
    ensures PointCoordinate(u) > PointCoordinate(v) + SimilarRange <==> u > v
    ensures (PointCoordinate(v) - SimilarRange <= PointCoordinate(u) <= PointCoordinate(v) + SimilarRange)
            <==> u == v
  {
    PointCoordinateExact(u);
    PointCoordinateExact(v);
  }

  /** The six counters of a point. */
  datatype Counts = Counts(xLess: int, xMore: int, xSimilar: int, yLess: int, yMore: int, ySimilar: int)

  const NoCounts: Counts := Counts(0, 0, 0, 0, 0, 0)

  /**
   * A Point: its scaled coordinates, the index of the stroke (Pair) it
   * belongs to, and its counters. The Java object's reference to its Pair is
   * the pair's index here.
   */
  datatype Point = Point(x: int, y: int, pair: nat, counts: Counts)

  /** A Pair: the start point a and the end point b of one stroke. */
  datatype Pair = Pair(a: Point, b: Point)

  function StartPoint(s: Stroke, pair: nat): Point {
    Point(PointCoordinate(s.startX), PointCoordinate(s.startY), pair, NoCounts)
  }

  function EndPoint(s: Stroke, pair: nat): Point {
    Point(PointCoordinate(s.endX), PointCoordinate(s.endY), pair, NoCounts)
  }

  /** Both points of pair i know that they belong to pair i (setPair). */
  predicate PairIndexed(pairs: seq<Pair>) {
    forall i :: 0 <= i < |pairs| ==> pairs[i].a.pair == i && pairs[i].b.pair == i
  }

  /** convertKanjiInfo: one pair per stroke, each point knowing its pair. */
  function PairsOf(strokes: seq<Stroke>): (pairs: seq<Pair>)
    ensures |pairs| == |strokes| && PairIndexed(pairs)
  {
    seq(|strokes|, i requires 0 <= i < |strokes| => Pair(StartPoint(strokes[i], i), EndPoint(strokes[i], i)))
  }

  method ConvertKanjiInfo(strokes: seq<Stroke>) returns (pairs: seq<Pair>)
    ensures pairs == PairsOf(strokes)
  {
    var result := new Pair[|strokes|](_ => Pair(StartPoint(Stroke(0, 0, 0, 0), 0), EndPoint(Stroke(0, 0, 0, 0), 0)));
    for i := 0 to |strokes|
      invariant forall k :: 0 <= k < i ==> result[k] == PairsOf(strokes)[k]
    {
      var stroke := strokes[i];
      result[i] := Pair(StartPoint(stroke, i), EndPoint(stroke, i));
    }
    pairs := result[..];
  }

  /** One other point's contribution to the counters of the point at (x, y). */
  function CountOne(c: Counts, x: int, y: int, other: Point): Counts {
    var c1 := if other.x < x - SimilarRange then c.(xLess := c.xLess + 1)
              else if other.x > x + SimilarRange then c.(xMore := c.xMore + 1)
              else c.(xSimilar := c.xSimilar + 1);
    if other.y < y - SimilarRange then c1.(yLess := c1.yLess + 1)
    else if other.y > y + SimilarRange then c1.(yMore := c1.yMore + 1)
    else c1.(ySimilar := c1.ySimilar + 1)
  }

  /** The counters of points[self] once Point.count has looked at points[..n]. */
  function CountsUpTo(points: seq<Point>, self: nat, n: nat): Counts
    requires self < |points| && n <= |points|
  {
    if n == 0 then NoCounts
    else
      var c := CountsUpTo(points, self, n - 1);
      if n - 1 == self then c else CountOne(c, points[self].x, points[self].y, points[n - 1])
  }

  function CountsOf(points: seq<Point>, self: nat): Counts
    requires self < |points|
  {
    CountsUpTo(points, self, |points|)
  }

  /** Every counter is non-negative and each axis's three counters add up to `others`. */
  predicate Balanced(c: Counts, others: int) {
    0 <= c.xLess && 0 <= c.xMore && 0 <= c.xSimilar
    && 0 <= c.yLess && 0 <= c.yMore && 0 <= c.ySimilar
    && c.xLess + c.xMore + c.xSimilar == others
    && c.yLess + c.yMore + c.ySimilar == others
  }

  lemma {:induction false} CountsUpToBalanced(points: seq<Point>, self: nat, n: nat)
    requires self < |points| && n <= |points|
    ensures Balanced(CountsUpTo(points, self, n), if self < n then n - 1 else n)
  {
    if n > 0 {
      CountsUpToBalanced(points, self, n - 1);
    }
  }

  /** Point.count classifies every other point once on each axis. */
  lemma CountsTotal(points: seq<Point>, self: nat)
    requires self < |points|
    ensures Balanced(CountsOf(points, self), |points| - 1)
  {
    CountsUpToBalanced(points, self, |points|);
  }

  /** Point.count: the six counters, against every point other than this one. */
  method Count(allPoints: seq<Point>, self: nat) returns (c: Counts)
    requires self < |allPoints|
    ensures c == CountsOf(allPoints, self)
  {
    var x, y := allPoints[self].x, allPoints[self].y;
    var xLess, xMore, xSimilar, yLess, yMore, ySimilar := 0, 0, 0, 0, 0, 0;
    for i := 0 to |allPoints|
      invariant Counts(xLess, xMore, xSimilar, yLess, yMore, ySimilar) == CountsUpTo(allPoints, self, i)
    {
      if i != self {
        var point := allPoints[i];
        if point.x < x - SimilarRange {
          xLess := xLess + 1;
        } else if point.x > x + SimilarRange {
          xMore := xMore + 1;
        } else {
          xSimilar := xSimilar + 1;
        }
        if point.y < y - SimilarRange {
          yLess := yLess + 1;
        } else if point.y > y + SimilarRange {
          yMore := yMore + 1;
        } else {
          ySimilar := ySimilar + 1;
        }
      }
    }
    c := Counts(xLess, xMore, xSimilar, yLess, yMore, ySimilar);
  }

  /** The points of the pairs in order a0, b0, a1, b1, ... before counting. */
  function Layout(pairs: seq<Pair>): (points: seq<Point>)
    ensures |points| == 2 * |pairs|
  {
    seq(2 * |pairs|, k requires 0 <= k < 2 * |pairs| => if k % 2 == 0 then pairs[k / 2].a else pairs[k / 2].b)
  }

  /** getPairPoints: the laid-out points, each with its counters. */
  function PairPoints(pairs: seq<Pair>): (points: seq<Point>)
    ensures |points| == 2 * |pairs|
  {
    var laid := Layout(pairs);
    seq(|laid|, k requires 0 <= k < |laid| => laid[k].(counts := CountsOf(laid, k)))
  }

  method GetPairPoints(pairs: seq<Pair>) returns (points: seq<Point>)
    ensures points == PairPoints(pairs)
  {
    var result := new Point[2 * |pairs|](_ => Point(0, 0, 0, NoCounts));
    var out := 0;
    for i := 0 to |pairs|
      invariant out == 2 * i
      invariant forall k :: 0 <= k < out ==> result[k] == Layout(pairs)[k]
    {
      result[out] := pairs[i].a;
      out := out + 1;
      result[out] := pairs[i].b;
      out := out + 1;
    }
    // Counting reads only coordinates, which counting never changes.
    var laid := result[..];
    assert laid == Layout(pairs);
    for k := 0 to result.Length
      invariant forall j :: 0 <= j < k ==> result[j] == laid[j].(counts := CountsOf(laid, j))
      invariant forall j :: k <= j < result.Length ==> result[j] == laid[j]
    {
      var c := Count(laid, k);
      result[k] := result[k].(counts := c);
    }
    points := result[..];
  }

  /**
   * The points of a kanji's strokes: stroke i's start at 2i and its end at
   * 2i + 1, both belonging to pair i, scaled, and counted against the other
   * 2n - 1 points.
   */
  lemma PointsOfStrokes(strokes: seq<Stroke>, i: nat)
    requires i < |strokes|
    ensures var points := PairPoints(PairsOf(strokes));
      && |points| == 2 * |strokes|
      && points[2 * i].x == 255 * strokes[i].startX + 127 && points[2 * i].y == 255 * strokes[i].startY + 127
      && points[2 * i + 1].x == 255 * strokes[i].endX + 127 && points[2 * i + 1].y == 255 * strokes[i].endY + 127
      && points[2 * i].pair == i && points[2 * i + 1].pair == i
      && Balanced(points[2 * i].counts, 2 * |strokes| - 1)
      && Balanced(points[2 * i + 1].counts, 2 * |strokes| - 1)
  {
    var laid := Layout(PairsOf(strokes));
    PointCoordinateExact(strokes[i].startX);
    PointCoordinateExact(strokes[i].startY);
    PointCoordinateExact(strokes[i].endX);
    PointCoordinateExact(strokes[i].endY);
    CountsTotal(laid, 2 * i);
    CountsTotal(laid, 2 * i + 1);
  }

  /** Every point of a laid-out kanji belongs to pair k / 2 and has balanced counters. */
  lemma PairPointsShape(pairs: seq<Pair>, k: nat)
    requires PairIndexed(pairs) && k < 2 * |pairs|
    ensures PairPoints(pairs)[k].pair == k / 2
    ensures Balanced(PairPoints(pairs)[k].counts, 2 * |pairs| - 1)
  {
    CountsTotal(Layout(pairs), k);
  }

  // ---------------------------------------------------------------------------
  // ScoreAndIndex

  /** A candidate point's index with the score a drawn point gives it. */
  datatype ScoreAndIndex = ScoreAndIndex(score: int, index: int)

  /** ScoreAndIndex.compareTo: negative when a sorts before b. */
  function CompareScoreAndIndex(a: ScoreAndIndex, b: ScoreAndIndex): int {
    if b.score > a.score then 1
    else if b.score < a.score then -1
    else a.index - b.index
  }

  /**
   * compareTo orders by descending score, then by ascending index; it is
   * zero exactly on equal values, antisymmetric and transitive.
   */
  lemma ScoreAndIndexOrder(a: ScoreAndIndex, b: ScoreAndIndex, c: ScoreAndIndex)
    ensures CompareScoreAndIndex(a, b) < 0 <==> a.score > b.score || (a.score == b.score && a.index < b.index)
    ensures CompareScoreAndIndex(a, b) == 0 <==> a == b
    ensures Sign(CompareScoreAndIndex(a, b)) == -Sign(CompareScoreAndIndex(b, a))
    ensures CompareScoreAndIndex(a, b) < 0 && CompareScoreAndIndex(b, c) < 0 ==> CompareScoreAndIndex(a, c) < 0
  {
  }

  // ---------------------------------------------------------------------------
  // Point.score: scores of all candidate points, and a rough ranking

  /** How far apart two points' counters are. */
  function Difference(p: Counts, q: Counts): int {
    Abs(p.xLess - q.xLess) + Abs(p.xMore - q.xMore) + Abs(p.xSimilar - q.xSimilar)
    + Abs(p.yLess - q.yLess) + Abs(p.yMore - q.yMore) + Abs(p.ySimilar - q.ySimilar)
  }

  function PointScores(p: Counts, others: seq<Point>, maxScore: int): (s: seq<int>)
    ensures |s| == |others|
  {
    seq(|others|, i requires 0 <= i < |others| => maxScore - Difference(p, others[i].counts))
  }

  lemma DifferenceBound(p: Counts, q: Counts, a: nat, b: nat)
    requires Balanced(p, a) && Balanced(q, b)
    ensures 0 <= Difference(p, q) <= 6 * Max(a, b)
  {
  }

  /**
   * With maxScore = 6 × the larger point count, as getMatchScore sets it,
   * every score lies between 6 and maxScore: "difference" never reaches
   * maxScore.
   */
  lemma PointScoresInRange(p: Counts, others: seq<Point>, drawnCount: nat, maxScore: int)
    requires drawnCount >= 1 && Balanced(p, drawnCount - 1)
    requires forall i :: 0 <= i < |others| ==> Balanced(others[i].counts, |others| - 1)
    requires maxScore == 6 * Max(drawnCount, |others|)
    ensures forall i :: 0 <= i < |others| ==> 6 <= PointScores(p, others, maxScore)[i] <= maxScore
  {
    forall i | 0 <= i < |others|
      ensures 6 <= PointScores(p, others, maxScore)[i] <= maxScore
    {
      DifferenceBound(p, others[i].counts, drawnCount - 1, |others| - 1);
    }
  }

  /** The score of preSortedScore entry `slot`: the dummy entry past the end scores 0. */
  function SlotScore(scores: seq<int>, slot: int): int {
    if 0 <= slot < |scores| then scores[slot] else 0
  }

  /** The search loop of Point.score: the first of slots 0..3 that thisScore beats, else 4. */
  function BestIndex(best: seq<int>, scores: seq<int>, thisScore: int): (r: nat)
    requires |best| == BestScoresSortFirst
    ensures r <= 4
    ensures forall k :: 0 <= k < r ==> thisScore <= SlotScore(scores, best[k])
    ensures r < 4 ==> thisScore > SlotScore(scores, best[r])
  {
    if thisScore > SlotScore(scores, best[0]) then 0
    else if thisScore > SlotScore(scores, best[1]) then 1
    else if thisScore > SlotScore(scores, best[2]) then 2
    else if thisScore > SlotScore(scores, best[3]) then 3
    else 4
  }

  /** The shift loop and store of Point.score: i enters at bestIndex, the last slot falls off. */
  function InsertBest(best: seq<int>, bestIndex: nat, i: int): (r: seq<int>)
    requires |best| == BestScoresSortFirst && bestIndex <= 4
    ensures |r| == BestScoresSortFirst
  {
    seq(BestScoresSortFirst, k requires 0 <= k < BestScoresSortFirst =>
      if k < bestIndex then best[k] else if k == bestIndex then i else best[k - 1])
  }

  lemma InsertBestAt(best: seq<int>, bestIndex: nat, i: int)
    requires |best| == BestScoresSortFirst && bestIndex <= 4
    ensures forall k :: 0 <= k < bestIndex ==> InsertBest(best, bestIndex, i)[k] == best[k]
    ensures InsertBest(best, bestIndex, i)[bestIndex] == i
    ensures forall k :: bestIndex < k < BestScoresSortFirst ==> InsertBest(best, bestIndex, i)[k] == best[k - 1]
  {
  }

  /** The best array and worstBestScore of Point.score. */
  datatype TopFive = TopFive(best: seq<int>, worstBestScore: int)

  /** One candidate point i's turn at the best array, as the first loop of Point.score takes it. */
  function TopFiveStep(scores: seq<int>, t: TopFive, i: nat): (r: TopFive)
    requires i < |scores| && |t.best| == BestScoresSortFirst
    ensures |r.best| == BestScoresSortFirst
  {
    var thisScore := scores[i];
    if thisScore >= t.worstBestScore then
      var bestIndex := BestIndex(t.best, scores, thisScore);
      TopFive(InsertBest(t.best, bestIndex, i),
              if bestIndex == BestScoresSortFirst - 1 then thisScore else t.worstBestScore)
    else t
  }

  /** The best array after the first n candidate points; the dummy slot is |scores|. */
  function TopFiveUpTo(scores: seq<int>, n: nat): (t: TopFive)
    requires n <= |scores|
    ensures |t.best| == BestScoresSortFirst
  {
    if n == 0 then TopFive(seq(BestScoresSortFirst, _ => |scores|), 0)
    else TopFiveStep(scores, TopFiveUpTo(scores, n - 1), n - 1)
  }

  /** Every slot of best holds a candidate point already seen, or the dummy. */
  predicate SlotsSeen(best: seq<int>, n: nat, dummy: int) {
    forall k :: 0 <= k < |best| ==> (0 <= best[k] < n || best[k] == dummy)
  }

  lemma {:induction false} TopFiveSlots(scores: seq<int>, n: nat)
    requires n <= |scores|
    ensures SlotsSeen(TopFiveUpTo(scores, n).best, n, |scores|)
  {
    if n > 0 {
      TopFiveSlots(scores, n - 1);
      var t := TopFiveUpTo(scores, n - 1);
      var thisScore := scores[n - 1];
      if thisScore >= t.worstBestScore {
        InsertBestAt(t.best, BestIndex(t.best, scores, thisScore), n - 1);
      }
    }
  }

  /** The scores along the best array never increase. */
  predicate Descending(scores: seq<int>, best: seq<int>) {
    forall i, j :: 0 <= i < j < |best| ==> SlotScore(scores, best[i]) >= SlotScore(scores, best[j])
  }

  lemma StepDescending(scores: seq<int>, t: TopFive, i: nat)
    requires i < |scores| && |t.best| == BestScoresSortFirst && Descending(scores, t.best)
    ensures Descending(scores, TopFiveStep(scores, t, i).best)
  {
    var thisScore := scores[i];
    if thisScore >= t.worstBestScore {
      var bestIndex := BestIndex(t.best, scores, thisScore);
      var r := InsertBest(t.best, bestIndex, i);
      InsertBestAt(t.best, bestIndex, i);
      assert SlotScore(scores, r[bestIndex]) == thisScore;
      forall x, y | 0 <= x < y < BestScoresSortFirst
        ensures SlotScore(scores, r[x]) >= SlotScore(scores, r[y])
      {
        if y < bestIndex {
          assert r[x] == t.best[x] && r[y] == t.best[y];
        } else if y == bestIndex {
          assert r[x] == t.best[x];
        } else if x < bestIndex {
          assert r[x] == t.best[x] && r[y] == t.best[y - 1];
        } else if x == bestIndex {
          assert r[y] == t.best[y - 1];
          assert thisScore > SlotScore(scores, t.best[bestIndex]);
        } else {
          assert r[x] == t.best[x - 1] && r[y] == t.best[y - 1];
        }
      }
    }
  }

  lemma {:induction false} TopFiveDescending(scores: seq<int>, n: nat)
    requires n <= |scores|
    ensures Descending(scores, TopFiveUpTo(scores, n).best)
  {
    if n > 0 {
      TopFiveDescending(scores, n - 1);
      StepDescending(scores, TopFiveUpTo(scores, n - 1), n - 1);
    }
  }

  /** The first k entries of best are distinct candidate points below n; the rest are the dummy. */
  predicate FilledBest(best: seq<int>, k: nat, n: nat, dummy: int) {
    |best| == BestScoresSortFirst && k <= BestScoresSortFirst
    && (forall j :: 0 <= j < k ==> 0 <= best[j] < n)
    && (forall j :: k <= j < BestScoresSortFirst ==> best[j] == dummy)
    && (forall i, j :: 0 <= i < j < k ==> best[i] != best[j])
  }

  predicate Contains(best: seq<int>, n: nat, j: int)
    requires n <= |best|
  {
    j in best[..n]
  }

  /** Each of the candidate points 0..n-1 is among the first n slots. */
  predicate Covers(best: seq<int>, n: nat) {
    n <= |best| && forall j :: 0 <= j < n ==> Contains(best, n, j)
  }

  /** Storing a new candidate i keeps best filled, and keeps every candidate already there while slots are free. */
  lemma InsertFilled(best: seq<int>, bestIndex: nat, k: nat, i: nat, dummy: int)
    requires FilledBest(best, k, i, dummy) && bestIndex <= 4 && dummy > i
    requires k < BestScoresSortFirst ==> bestIndex <= k
    ensures FilledBest(InsertBest(best, bestIndex, i), Min(k + 1, BestScoresSortFirst), i + 1, dummy)
    ensures k < BestScoresSortFirst ==> forall j :: Contains(best, k, j) ==> Contains(InsertBest(best, bestIndex, i), k + 1, j)
    ensures Contains(InsertBest(best, bestIndex, i), Min(k + 1, BestScoresSortFirst), i)
  {
    var r := InsertBest(best, bestIndex, i);
    InsertBestAt(best, bestIndex, i);
    var k' := Min(k + 1, BestScoresSortFirst);
    assert r[..k'][bestIndex] == i;
    if k < BestScoresSortFirst {
      forall j | Contains(best, k, j)
        ensures Contains(r, k + 1, j)
      {
        var m :| 0 <= m < k && best[m] == j;
        if m < bestIndex {
          assert r[..k + 1][m] == j;
        } else {
          assert r[..k + 1][m + 1] == j;
        }
      }
    }
  }

  /**
   * When every score is positive, no candidate point is lost from the first
   * five: best holds min(n, 5) distinct candidates, every candidate when
   * there are at most five, and the dummy elsewhere.
   */
  lemma {:induction false} TopFiveFilled(scores: seq<int>, n: nat)
    requires n <= |scores|
    requires forall i :: 0 <= i < |scores| ==> scores[i] > 0
    ensures FilledBest(TopFiveUpTo(scores, n).best, Min(n, BestScoresSortFirst), n, |scores|)
    ensures n < BestScoresSortFirst ==> TopFiveUpTo(scores, n).worstBestScore == 0
    ensures n <= BestScoresSortFirst ==> Covers(TopFiveUpTo(scores, n).best, n)
  {
    if n > 0 {
      TopFiveFilled(scores, n - 1);
      TopFiveFilledStep(scores, TopFiveUpTo(scores, n - 1), n);
    }
  }

  lemma TopFiveFilledStep(scores: seq<int>, t: TopFive, n: nat)
    requires 0 < n <= |scores| && |t.best| == BestScoresSortFirst
    requires forall i :: 0 <= i < |scores| ==> scores[i] > 0
    requires FilledBest(t.best, Min(n - 1, BestScoresSortFirst), n - 1, |scores|)
    requires n - 1 < BestScoresSortFirst ==> t.worstBestScore == 0
    requires n - 1 <= BestScoresSortFirst ==> Covers(t.best, n - 1)
    ensures FilledBest(TopFiveStep(scores, t, n - 1).best, Min(n, BestScoresSortFirst), n, |scores|)
    ensures n < BestScoresSortFirst ==> TopFiveStep(scores, t, n - 1).worstBestScore == 0
    ensures n <= BestScoresSortFirst ==> Covers(TopFiveStep(scores, t, n - 1).best, n)
  {
    var k := Min(n - 1, BestScoresSortFirst);
    var thisScore := scores[n - 1];
    if thisScore >= t.worstBestScore {
      var bestIndex := BestIndex(t.best, scores, thisScore);
      FreeSlotFirst(scores, t.best, k, n - 1, thisScore);
      assert TopFiveStep(scores, t, n - 1) == TopFive(InsertBest(t.best, bestIndex, n - 1),
        if bestIndex == BestScoresSortFirst - 1 then thisScore else t.worstBestScore);
      InsertedFilled(t.best, bestIndex, n, |scores|);
    } else {
      assert k == BestScoresSortFirst;
      FilledBestGrow(t.best, k, n - 1, |scores|);
    }
  }

  /** Storing candidate n - 1 in a slot no later than the first dummy keeps best filled and covering. */
  lemma InsertedFilled(best: seq<int>, bestIndex: nat, n: nat, dummy: int)
    requires 0 < n <= dummy && bestIndex <= 4
    requires FilledBest(best, Min(n - 1, BestScoresSortFirst), n - 1, dummy)
    requires bestIndex <= Min(n - 1, BestScoresSortFirst) || n - 1 >= BestScoresSortFirst
    requires n - 1 <= BestScoresSortFirst ==> Covers(best, n - 1)
    ensures FilledBest(InsertBest(best, bestIndex, n - 1), Min(n, BestScoresSortFirst), n, dummy)
    ensures n <= BestScoresSortFirst ==> Covers(InsertBest(best, bestIndex, n - 1), n)
  {
    var k := Min(n - 1, BestScoresSortFirst);
    InsertFilled(best, bestIndex, k, n - 1, dummy);
    assert Min(k + 1, BestScoresSortFirst) == Min(n, BestScoresSortFirst);
    if n <= BestScoresSortFirst {
      CoversGrow(best, InsertBest(best, bestIndex, n - 1), n);
    }
  }

  /** A best array filled from the first n candidates is filled from the first n + 1. */
  lemma FilledBestGrow(best: seq<int>, k: nat, n: nat, dummy: int)
    requires FilledBest(best, k, n, dummy)
    ensures FilledBest(best, k, n + 1, dummy)
  {
  }

  /** A positive score beats the first dummy slot, so it is stored no later than there. */
  lemma FreeSlotFirst(scores: seq<int>, best: seq<int>, k: nat, n: nat, thisScore: int)
    requires FilledBest(best, k, n, |scores|) && thisScore > 0
    ensures BestIndex(best, scores, thisScore) <= k || k == BestScoresSortFirst
  {
    if k < 4 {
      assert SlotScore(scores, best[k]) == 0;
    }
  }

  /** Covering the first n - 1 candidates and adding candidate n - 1 covers the first n. */
  lemma CoversGrow(best: seq<int>, r: seq<int>, n: nat)
    requires 0 < n <= BestScoresSortFirst && |best| == |r| == BestScoresSortFirst
    requires Covers(best, n - 1)
    requires forall j :: Contains(best, n - 1, j) ==> Contains(r, n, j)
    requires Contains(r, n, n - 1)
    ensures Covers(r, n)
  {
    forall j | 0 <= j < n
      ensures Contains(r, n, j)
    {
      if j < n - 1 {
        assert Contains(best, n - 1, j);
      }
    }
  }

  /** The candidate points below n that are not in best, in index order. */
  function Unused(best: seq<int>, n: nat): seq<int> {
    if n == 0 then [] else Unused(best, n - 1) + (if n - 1 in best then [] else [n - 1])
  }

  /**
   * The first n entries of a ranking are the candidate points 0..n-1, each
   * exactly once.
   */
  predicate RankedPrefix(sorted: seq<int>, n: nat) {
    |sorted| >= n
    && (forall m :: 0 <= m < n ==> 0 <= sorted[m] < n)
    && (forall j :: 0 <= j < n ==> multiset(sorted[..n])[j] == 1)
  }

  lemma {:induction false} DistinctMultiplicity(s: seq<int>, x: int)
    requires forall i, j :: 0 <= i < j < |s| ==> s[i] != s[j]
    ensures multiset(s)[x] == if x in s then 1 else 0
  {
    if s != [] {
      var t := s[..|s| - 1];
      assert s == t + [s[|s| - 1]];
      DistinctMultiplicity(t, x);
      assert x in s <==> x in t || x == s[|s| - 1];
    }
  }

  lemma {:induction false} UnusedMultiplicity(best: seq<int>, n: nat, x: int)
    ensures multiset(Unused(best, n))[x] == if 0 <= x < n && x !in best then 1 else 0
  {
    if n > 0 {
      UnusedMultiplicity(best, n - 1, x);
      var u := Unused(best, n - 1);
      if n - 1 in best {
        assert Unused(best, n) == u;
      } else {
        assert Unused(best, n) == u + [n - 1];
        assert multiset(u + [n - 1]) == multiset(u) + multiset{n - 1};
      }
    }
  }

  lemma {:induction false} UnusedBounds(best: seq<int>, n: nat)
    ensures forall m :: 0 <= m < |Unused(best, n)| ==> 0 <= Unused(best, n)[m] < n
  {
    if n > 0 {
      UnusedBounds(best, n - 1);
    }
  }

  function Range(n: nat): (r: seq<int>)
    ensures |r| == n
  {
    seq(n, i requires 0 <= i < n => i)
  }

  lemma {:induction false} RangeMultiplicity(n: nat, x: int)
    ensures multiset(Range(n))[x] == if 0 <= x < n then 1 else 0
  {
    if n > 0 {
      assert Range(n) == Range(n - 1) + [n - 1];
      RangeMultiplicity(n - 1, x);
    }
  }

  /**
   * The sortedScore array built from a filled best array ranks every
   * candidate point exactly once in its first n entries.
   */
  lemma SortedIsRanking(best: seq<int>, n: nat)
    requires FilledBest(best, Min(n, BestScoresSortFirst), n, n)
    requires n <= BestScoresSortFirst ==> Covers(best, n)
    ensures RankedPrefix(best + Unused(best, n), n)
  {
    if n >= BestScoresSortFirst {
      SortedIsRankingMany(best, n);
    } else {
      var sorted := best + Unused(best, n);
      assert sorted[..n] == best[..n];
      forall j | 0 <= j < n
        ensures multiset(sorted[..n])[j] == 1
      {
        assert Contains(best, n, j);
        DistinctMultiplicity(best[..n], j);
      }
    }
  }

  lemma SortedMultiset(best: seq<int>, n: nat)
    requires n >= BestScoresSortFirst && FilledBest(best, BestScoresSortFirst, n, n)
    ensures multiset(best + Unused(best, n)) == multiset(Range(n))
  {
    var sorted := best + Unused(best, n);
    forall x
      ensures multiset(sorted)[x] == multiset(Range(n))[x]
    {
      DistinctMultiplicity(best, x);
      UnusedMultiplicity(best, n, x);
      RangeMultiplicity(n, x);
    }
  }

  /** With at least five candidate points the ranking holds every one of them and nothing else. */
  lemma SortedIsRankingMany(best: seq<int>, n: nat)
    requires n >= BestScoresSortFirst && FilledBest(best, BestScoresSortFirst, n, n)
    ensures RankedPrefix(best + Unused(best, n), n)
  {
    var sorted := best + Unused(best, n);
    SortedMultiset(best, n);
    assert |sorted| == |multiset(sorted)| == |multiset(Range(n))| == |Range(n)|;
    assert sorted[..n] == sorted;
    UnusedBounds(best, n);
    forall m | 0 <= m < n
      ensures 0 <= sorted[m] < n
    {
      if m >= BestScoresSortFirst {
        assert sorted[m] == Unused(best, n)[m - BestScoresSortFirst];
      }
    }
    forall j | 0 <= j < n
      ensures multiset(sorted[..n])[j] == 1
    {
      RangeMultiplicity(n, j);
    }
  }

  /**
   * The first loop of Point.score: every score, and the best array. The
   * score array and the scores in preSortedScore receive the same values;
   * one array, with the dummy entry at its end, holds both.
   */
  method RankScores(p: Counts, others: seq<Point>, maxScore: int) returns (score: seq<int>, best: seq<int>)
    ensures score == PointScores(p, others, maxScore)
    ensures best == TopFiveUpTo(score, |score|).best
  {
    var n := |others|;
    ghost var scores := PointScores(p, others, maxScore);
    var preScore := new int[n + 1](_ => 0);
    var bestArray := new int[BestScoresSortFirst](_ => n);
    var worstBestScore := 0;
    assert bestArray[..] == TopFiveUpTo(scores, 0).best;
    for i := 0 to n
      invariant preScore[..i] == scores[..i] && preScore[n] == 0
      invariant bestArray[..] == TopFiveUpTo(scores, i).best
      invariant worstBestScore == TopFiveUpTo(scores, i).worstBestScore
    {
      var thisScore := maxScore - Difference(p, others[i].counts);
      preScore[i] := thisScore;
      assert preScore[..i + 1] == scores[..i + 1];
      worstBestScore := Rank(bestArray, preScore, scores, i, thisScore, worstBestScore);
    }
    score := preScore[..n];
    best := bestArray[..];
  }

  /** One candidate point's turn at the best array. */
  method Rank(best: array<int>, preScore: array<int>, ghost scores: seq<int>, i: nat, thisScore: int,
              worstBestScore: int)
    returns (worst: int)
    requires best.Length == BestScoresSortFirst && preScore.Length == |scores| + 1 && i < |scores|
    requires best[..] == TopFiveUpTo(scores, i).best && worstBestScore == TopFiveUpTo(scores, i).worstBestScore
    requires preScore[..i + 1] == scores[..i + 1]
    requires preScore[|scores|] == 0 && best != preScore && thisScore == scores[i]
    modifies best
    ensures best[..] == TopFiveUpTo(scores, i + 1).best && worst == TopFiveUpTo(scores, i + 1).worstBestScore
  {
    worst := worstBestScore;
    TopFiveSlots(scores, i);
    if thisScore >= worstBestScore {
      var bestIndex := FindBestIndex(best, preScore, scores, i, thisScore);
      Shift(best, bestIndex, i);
      if bestIndex == BestScoresSortFirst - 1 {
        worst := thisScore;
      }
    }
  }

  /** The search loop of Point.score, with its break. */
  method FindBestIndex(best: array<int>, preScore: array<int>, ghost scores: seq<int>, i: nat, thisScore: int)
    returns (bestIndex: nat)
    requires best.Length == BestScoresSortFirst && preScore.Length == |scores| + 1 && i < |scores|
    requires SlotsSeen(best[..], i, |scores|)
    requires preScore[..i + 1] == scores[..i + 1]
    requires preScore[|scores|] == 0
    ensures bestIndex == BestIndex(best[..], scores, thisScore)
  {
    bestIndex := 0;
    while bestIndex < BestScoresSortFirst - 1
      invariant 0 <= bestIndex <= 4
      invariant forall k :: 0 <= k < bestIndex ==> thisScore <= SlotScore(scores, best[k])
    {
      if thisScore > preScore[best[bestIndex]] {
        assert thisScore > SlotScore(scores, best[bestIndex]);
        break;
      }
      bestIndex := bestIndex + 1;
    }
  }

  /** The shift loop and store of Point.score. */
  method Shift(best: array<int>, bestIndex: nat, i: int)
    requires best.Length == BestScoresSortFirst && bestIndex <= 4
    modifies best
    ensures best[..] == InsertBest(old(best[..]), bestIndex, i)
  {
    var moveIndex := BestScoresSortFirst - 1;
    while moveIndex > bestIndex
      invariant bestIndex <= moveIndex <= 4
      invariant forall k :: 0 <= k <= moveIndex ==> best[k] == old(best[k])
      invariant forall k :: moveIndex < k < BestScoresSortFirst ==> best[k] == old(best[k - 1])
    {
      best[moveIndex] := best[moveIndex - 1];
      moveIndex := moveIndex - 1;
    }
    best[bestIndex] := i;
    InsertBestAt(old(best[..]), bestIndex, i);
  }

  /** The last two loops of Point.score: the best entries first, then the unused ones in order. */
  method SortByBest(best: seq<int>, n: nat) returns (sorted: seq<int>)
    requires |best| == BestScoresSortFirst
    requires forall k :: 0 <= k < BestScoresSortFirst ==> 0 <= best[k] <= n
    ensures sorted == best + Unused(best, n)
  {
    var used := new bool[n + 1](_ => false);
    sorted := [];
    for i := 0 to BestScoresSortFirst
      invariant sorted == best[..i]
      invariant forall j :: 0 <= j <= n ==> (used[j] <==> j in best[..i])
    {
      sorted := sorted + [best[i]];
      used[best[i]] := true;
    }
    assert best[..BestScoresSortFirst] == best;
    for i := 0 to n
      invariant sorted == best + Unused(best, i)
      invariant forall j :: 0 <= j <= n ==> (used[j] <==> j in best)
    {
      if !used[i] {
        sorted := sorted + [i];
      }
    }
  }

  /** Point.score: the score of every candidate point, and the ranking sortedScore. */
  method ScorePoint(p: Counts, others: seq<Point>, maxScore: int) returns (score: seq<int>, sorted: seq<int>)
    ensures score == PointScores(p, others, maxScore)
    ensures sorted == Ranking(score)
  {
    var best;
    score, best := RankScores(p, others, maxScore);
    TopFiveSlots(score, |score|);
    sorted := SortByBest(best, |score|);
  }

  /** sortedScore as Point.score leaves it: the five best slots, then every unused candidate in index order. */
  function Ranking(scores: seq<int>): seq<int> {
    var best := TopFiveUpTo(scores, |scores|).best;
    best + Unused(best, |scores|)
  }

  /** With positive scores, sortedScore ranks every candidate point exactly once. */
  lemma RankingComplete(scores: seq<int>)
    requires forall i :: 0 <= i < |scores| ==> scores[i] > 0
    ensures RankedPrefix(Ranking(scores), |scores|)
  {
    TopFiveFilled(scores, |scores|);
    SortedIsRanking(TopFiveUpTo(scores, |scores|).best, |scores|);
  }

  // ---------------------------------------------------------------------------
  // Pair.score: the score of every pairing of two candidate points

  /**
   * The score of the drawn pair's a point on candidate point a together with
   * its b point on candidate point b (a != b): the sum of the two point
   * scores, times 0.9 when the candidate points belong to different pairs,
   * else times 0.97 when candidate point a is the end of its pair rather
   * than its start. A laid-out pair's start point sits at index 2 × pair.
   */
  function PairEntry(aScore: seq<int>, bScore: seq<int>, others: seq<Point>, a: nat, b: nat): real
    requires |aScore| == |others| && |bScore| == |others| && a < |others| && b < |others|
  {
    var score := (aScore[a] + bScore[b]) as real;
    if others[a].pair != others[b].pair then score * ScoreMultiNotPair
    else if a != 2 * others[a].pair then score * ScoreMultiWrongDirection
    else score
  }

  /**
   * On laid-out candidate points, "different pairs" means a / 2 != b / 2 and
   * "reversed" means that a is odd.
   */
  lemma PairEntryByIndex(aScore: seq<int>, bScore: seq<int>, pairs: seq<Pair>, a: nat, b: nat)
    requires PairIndexed(pairs) && |aScore| == 2 * |pairs| && |bScore| == 2 * |pairs|
    requires a < 2 * |pairs| && b < 2 * |pairs|
    ensures PairEntry(aScore, bScore, PairPoints(pairs), a, b)
            == (aScore[a] + bScore[b]) as real
               * (if a / 2 != b / 2 then ScoreMultiNotPair else if a % 2 == 1 then ScoreMultiWrongDirection else 1.0)
  {
    PairPointsShape(pairs, a);
    PairPointsShape(pairs, b);
  }

  /** Positive point scores of at most maxScore give pairings in (0, 2 × maxScore]. */
  lemma PairEntryRange(aScore: seq<int>, bScore: seq<int>, others: seq<Point>, a: nat, b: nat, maxScore: int)
    requires |aScore| == |others| && |bScore| == |others| && a < |others| && b < |others|
    requires 0 < aScore[a] <= maxScore && 0 < bScore[b] <= maxScore
    ensures 0.0 < PairEntry(aScore, bScore, others, a, b) <= 2.0 * maxScore as real
  {
  }

  /** m is the largest entry of s, or -1 when nothing is larger (the starting value of maxAScore and maxBScore). */
  predicate MaxOrMinusOne(s: seq<int>, m: real) {
    m >= -1.0
    && (forall k :: 0 <= k < |s| ==> s[k] as real <= m)
    && (m == -1.0 || exists k :: 0 <= k < |s| && m == s[k] as real)
  }

  /** The running maximum of Pair.score's loops: -1 to start with, raised by every larger score. */
  function MaxScoreOf(s: seq<int>): real {
    if |s| == 0 then -1.0
    else
      var m := MaxScoreOf(s[..|s| - 1]);
      if s[|s| - 1] as real > m then s[|s| - 1] as real else m
  }

  /** The running maximum is the largest score, or -1 when no score is larger. */
  lemma {:induction false} MaxScoreOfBounds(s: seq<int>)
    ensures MaxOrMinusOne(s, MaxScoreOf(s))
  {
    if |s| > 0 {
      var init := s[..|s| - 1];
      MaxScoreOfBounds(init);
      forall k | 0 <= k < |s|
        ensures s[k] as real <= MaxScoreOf(s)
      {
        if k < |s| - 1 {
          assert s[k] == init[k];
        }
      }
      if MaxScoreOf(s) != -1.0 && MaxScoreOf(s) != s[|s| - 1] as real {
        var k :| 0 <= k < |init| && MaxScoreOf(init) == init[k] as real;
        assert s[k] == init[k];
      }
    }
  }

  /** The pairing matrix of Pair.score: PairEntry off the diagonal, 0 on it. */
  function PairMatrix(aScore: seq<int>, bScore: seq<int>, others: seq<Point>): seq<seq<real>>
    requires |aScore| == |others| && |bScore| == |others|
  {
    seq(|others|, a requires 0 <= a < |others| =>
      seq(|others|, b requires 0 <= b < |others| => if a == b then 0.0 else PairEntry(aScore, bScore, others, a, b)))
  }

  /**
   * Pair.score: the matrix of pairing scores, indexed by candidate point, and
   * the two best point scores. The diagonal is never written and stays 0.
   */
  method ScorePair(aScore: seq<int>, bScore: seq<int>, others: seq<Point>)
    returns (scores: seq<seq<real>>, maxAScore: real, maxBScore: real)
    requires |aScore| == |others| && |bScore| == |others|
    ensures |scores| == |others| && forall a :: 0 <= a < |others| ==> |scores[a]| == |others|
    ensures forall a, b :: 0 <= a < |others| && 0 <= b < |others| ==>
      scores[a][b] == if a == b then 0.0 else PairEntry(aScore, bScore, others, a, b)
    ensures scores == PairMatrix(aScore, bScore, others)
    ensures maxAScore == MaxScoreOf(aScore) && maxBScore == MaxScoreOf(bScore)
    ensures MaxOrMinusOne(aScore, maxAScore) && MaxOrMinusOne(bScore, maxBScore)
  {
    var pointCount := |others|;
    maxBScore := -1.0;
    maxAScore := -1.0;
    for bIndex := 0 to pointCount
      invariant maxBScore == MaxScoreOf(bScore[..bIndex])
    {
      var score := bScore[bIndex];
      if score as real > maxBScore {
        maxBScore := score as real;
      }
      assert bScore[..bIndex + 1] == bScore[..bIndex] + [score];
    }
    assert bScore[..pointCount] == bScore;
    scores := [];
    for aIndex := 0 to pointCount
      invariant |scores| == aIndex && forall a :: 0 <= a < aIndex ==> |scores[a]| == pointCount
      invariant forall a, b :: 0 <= a < aIndex && 0 <= b < pointCount ==>
        scores[a][b] == if a == b then 0.0 else PairEntry(aScore, bScore, others, a, b)
      invariant maxAScore == MaxScoreOf(aScore[..aIndex])
    {
      var score := aScore[aIndex];
      if score as real > maxAScore {
        maxAScore := score as real;
      }
      assert aScore[..aIndex + 1] == aScore[..aIndex] + [score];
      var row := ScoreRow(aScore, bScore, others, aIndex);
      scores := scores + [row];
    }
    assert aScore[..pointCount] == aScore;
    MaxScoreOfBounds(aScore);
    MaxScoreOfBounds(bScore);
    forall a | 0 <= a < pointCount
      ensures scores[a] == PairMatrix(aScore, bScore, others)[a]
    {
    }
  }

  /** The inner loop of Pair.score: one row of the matrix. */
  method ScoreRow(aScore: seq<int>, bScore: seq<int>, availablePoints: seq<Point>, aIndex: nat)
    returns (row: seq<real>)
    requires |aScore| == |availablePoints| && |bScore| == |availablePoints| && aIndex < |availablePoints|
    ensures |row| == |availablePoints|
    ensures forall b :: 0 <= b < |row| ==>
      row[b] == if aIndex == b then 0.0 else PairEntry(aScore, bScore, availablePoints, aIndex, b)
  {
    var aPair := availablePoints[aIndex].pair;
    var wrongDirection := aIndex != 2 * aPair;
    row := [];
    for bIndex := 0 to |availablePoints|
      invariant |row| == bIndex
      invariant forall b :: 0 <= b < bIndex ==>
        row[b] == if aIndex == b then 0.0 else PairEntry(aScore, bScore, availablePoints, aIndex, b)
    {
      if bIndex == aIndex {
        row := row + [0.0];
        continue;
      }
      var score := (aScore[aIndex] + bScore[bIndex]) as real;
      if aPair != availablePoints[bIndex].pair {
        score := score * ScoreMultiNotPair;
      } else if wrongDirection {
        score := score * ScoreMultiWrongDirection;
      }
      row := row + [score];
    }
  }

  // ---------------------------------------------------------------------------
  // Pair.scoreAvailable: the best pairing among the points still available

  /**
   * A drawn pair once scored: its a point's scores and ranking, its b
   * point's ranking, the pairing matrix and the two best point scores.
   */
  datatype PairState = PairState(aScore: seq<int>, aSorted: seq<int>, bSorted: seq<int>,
                                 scores: seq<seq<real>>, maxAScore: real, maxBScore: real)

  predicate Shaped(d: PairState, n: nat) {
    |d.aScore| == n && RankedPrefix(d.aSorted, n) && RankedPrefix(d.bSorted, n)
    && |d.scores| == n && (forall a :: 0 <= a < n ==> |d.scores[a]| == n)
  }

  /** A pair's cached result: bestScore, bestAIndex, bestBIndex. */
  datatype Best = Best(score: real, a: int, b: int)

  /** The state of the scan: the best pairing so far, and the raised bar mustBeOver. */
  datatype Scan = Scan(best: Best, mustBeOver: real)

  /** The inner loop of scoreAvailable, from position bIndex of b's ranking. */
  function ScanB(d: PairState, n: nat, available: seq<bool>, aPoint: nat, bIndex: nat, s: Scan): Scan
    requires Shaped(d, n) && |available| == n && aPoint < n && bIndex <= n
    decreases n - bIndex
  {
    if bIndex == n then s
    else
      var bPoint := d.bSorted[bIndex];
      if bPoint == aPoint || !available[bPoint] then ScanB(d, n, available, aPoint, bIndex + 1, s)
      else
        var score := d.scores[aPoint][bPoint];
        if score > s.best.score then
          ScanB(d, n, available, aPoint, bIndex + 1,
                Scan(Best(score, aPoint, bPoint), if score > s.mustBeOver then score else s.mustBeOver))
        else ScanB(d, n, available, aPoint, bIndex + 1, s)
  }

  /** The outer loop of scoreAvailable, from position aIndex of a's ranking. */
  function ScanA(d: PairState, n: nat, available: seq<bool>, aIndex: nat, s: Scan): Scan
    requires Shaped(d, n) && |available| == n && aIndex <= n
    decreases n - aIndex
  {
    if aIndex == n then s
    else
      var aPoint := d.aSorted[aIndex];
      if d.aScore[aPoint] as real + d.maxBScore < s.mustBeOver || !available[aPoint] then
        ScanA(d, n, available, aIndex + 1, s)
      else ScanA(d, n, available, aIndex + 1, ScanB(d, n, available, aPoint, 0, s))
  }

  /**
   * scoreAvailable: a positive cached score is kept without looking at which
   * points are still available; so is the cache when even the two best
   * point scores cannot beat mustBeOver. Otherwise the scan starts again
   * from -1.
   */
  function BestAvailable(d: PairState, n: nat, cache: Best, available: seq<bool>, mustBeOver: real): Best
    requires Shaped(d, n) && |available| == n
  {
    if cache.score > 0.0 then cache
    else if d.maxAScore + d.maxBScore < mustBeOver then cache
    else ScanA(d, n, available, 0, Scan(Best(-1.0, cache.a, cache.b), mustBeOver)).best
  }

  method ScanRow(d: PairState, n: nat, available: array<bool>, aPoint: nat, s0: Scan) returns (s: Scan)
    requires Shaped(d, n) && available.Length == n && aPoint < n
    ensures s == ScanB(d, n, available[..], aPoint, 0, s0)
  {
    s := s0;
    var correspondingScores := d.scores[aPoint];
    for bIndex := 0 to n
      invariant ScanB(d, n, available[..], aPoint, 0, s0) == ScanB(d, n, available[..], aPoint, bIndex, s)
    {
      var bPointIndex := d.bSorted[bIndex];
      if bPointIndex == aPoint || !available[bPointIndex] {
        continue;
      }
      var score := correspondingScores[bPointIndex];
      if score > s.best.score {
        var mustBeOver := s.mustBeOver;
        if score > mustBeOver {
          mustBeOver := score;
        }
        s := Scan(Best(score, aPoint, bPointIndex), mustBeOver);
      }
    }
  }

  method ScoreAvailable(d: PairState, n: nat, cache: Best, available: array<bool>, mustBeOver0: real)
    returns (c: Best)
    requires Shaped(d, n) && available.Length == n
    ensures c == BestAvailable(d, n, cache, available[..], mustBeOver0)
  {
    if cache.score > 0.0 {
      return cache;
    }
    if d.maxAScore + d.maxBScore < mustBeOver0 {
      return cache;
    }
    var s := Scan(Best(-1.0, cache.a, cache.b), mustBeOver0);
    ghost var s0 := s;
    for aIndex := 0 to n
      invariant ScanA(d, n, available[..], 0, s0) == ScanA(d, n, available[..], aIndex, s)
    {
      var aPointIndex := d.aSorted[aIndex];
      if d.aScore[aPointIndex] as real + d.maxBScore < s.mustBeOver || !available[aPointIndex] {
        continue;
      }
      s := ScanRow(d, n, available, aPointIndex, s);
    }
    c := s.best;
  }

  // ---------------------------------------------------------------------------
  // What scoreAvailable finds

  /** A cached result: nothing found yet (-1), or a real pairing of two distinct points. */
  predicate GoodCache(c: Best, n: nat, maxScore: int) {
    c.score == -1.0
    || (0.0 < c.score <= 2.0 * maxScore as real && 0 <= c.a < n && 0 <= c.b < n && c.a != c.b)
  }

  /** The pairing scores of two distinct points lie in (0, 2 × maxScore]. */
  predicate EntriesIn(scores: seq<seq<real>>, n: nat, maxScore: int)
    requires |scores| == n && forall a :: 0 <= a < n ==> |scores[a]| == n
  {
    forall a, b :: 0 <= a < n && 0 <= b < n && a != b ==> 0.0 < scores[a][b] <= 2.0 * maxScore as real
  }

  /** A pair scored against n candidate points with positive point scores. */
  predicate Good(d: PairState, n: nat, maxScore: int) {
    Shaped(d, n) && EntriesIn(d.scores, n, maxScore)
    && (forall k :: 0 <= k < n ==> d.aScore[k] > 0)
    && d.maxBScore >= -1.0 && (n > 0 ==> d.maxAScore >= 0.0)
  }

  /** Until something is found, the bar stays at or below -1. */
  predicate Unraised(s: Scan) {
    s.best.score >= -1.0 && (s.best.score > 0.0 || s.mustBeOver <= -1.0)
  }

  /** Every position of a ranking of n points holds some point, and every point has a position. */
  lemma RankedFind(sorted: seq<int>, n: nat, x: int) returns (pos: nat)
    requires RankedPrefix(sorted, n) && 0 <= x < n
    ensures pos < n && sorted[pos] == x
  {
    assert multiset(sorted[..n])[x] == 1;
    assert x in sorted[..n];
    var k :| 0 <= k < n && sorted[..n][k] == x;
    pos := k;
  }

  /** The inner scan never loses its best, keeps good caches good and raises the bar only once something is found. */
  lemma {:induction false} ScanBKeeps(d: PairState, n: nat, available: seq<bool>, aPoint: nat, bIndex: nat, s: Scan, maxScore: int)
    requires Good(d, n, maxScore) && |available| == n && aPoint < n && bIndex <= n
    requires GoodCache(s.best, n, maxScore)
    ensures var r := ScanB(d, n, available, aPoint, bIndex, s);
      r.best.score >= s.best.score && GoodCache(r.best, n, maxScore) && (Unraised(s) ==> Unraised(r))
    decreases n - bIndex
  {
    if bIndex < n {
      var bPoint := d.bSorted[bIndex];
      if bPoint == aPoint || !available[bPoint] {
        ScanBKeeps(d, n, available, aPoint, bIndex + 1, s, maxScore);
      } else {
        var score := d.scores[aPoint][bPoint];
        if score > s.best.score {
          ScanBKeeps(d, n, available, aPoint, bIndex + 1,
                     Scan(Best(score, aPoint, bPoint), if score > s.mustBeOver then score else s.mustBeOver), maxScore);
        } else {
          ScanBKeeps(d, n, available, aPoint, bIndex + 1, s, maxScore);
        }
      }
    }
  }

  /** The inner scan's best is at least every available pairing of aPoint from position bIndex on. */
  lemma {:induction false} ScanBFinds(d: PairState, n: nat, available: seq<bool>, aPoint: nat, bIndex: nat, s: Scan,
                                      maxScore: int, pos: nat)
    requires Good(d, n, maxScore) && |available| == n && aPoint < n && bIndex <= pos < n
    requires GoodCache(s.best, n, maxScore)
    requires d.bSorted[pos] != aPoint && available[d.bSorted[pos]]
    ensures ScanB(d, n, available, aPoint, bIndex, s).best.score >= d.scores[aPoint][d.bSorted[pos]]
    decreases n - bIndex
  {
    var bPoint := d.bSorted[bIndex];
    if bPoint == aPoint || !available[bPoint] {
      ScanBFinds(d, n, available, aPoint, bIndex + 1, s, maxScore, pos);
    } else {
      var score := d.scores[aPoint][bPoint];
      var next := if score > s.best.score
        then Scan(Best(score, aPoint, bPoint), if score > s.mustBeOver then score else s.mustBeOver)
        else s;
      assert ScanB(d, n, available, aPoint, bIndex, s) == ScanB(d, n, available, aPoint, bIndex + 1, next);
      if bIndex == pos {
        ScanBKeeps(d, n, available, aPoint, bIndex + 1, next, maxScore);
      } else {
        ScanBFinds(d, n, available, aPoint, bIndex + 1, next, maxScore, pos);
      }
    }
  }

  /** The same for the outer scan. */
  lemma {:induction false} ScanAKeeps(d: PairState, n: nat, available: seq<bool>, aIndex: nat, s: Scan, maxScore: int)
    requires Good(d, n, maxScore) && |available| == n && aIndex <= n
    requires GoodCache(s.best, n, maxScore)
    ensures var r := ScanA(d, n, available, aIndex, s);
      r.best.score >= s.best.score && GoodCache(r.best, n, maxScore) && (Unraised(s) ==> Unraised(r))
    decreases n - aIndex
  {
    if aIndex < n {
      var aPoint := d.aSorted[aIndex];
      if d.aScore[aPoint] as real + d.maxBScore < s.mustBeOver || !available[aPoint] {
        ScanAKeeps(d, n, available, aIndex + 1, s, maxScore);
      } else {
        ScanBKeeps(d, n, available, aPoint, 0, s, maxScore);
        ScanAKeeps(d, n, available, aIndex + 1, ScanB(d, n, available, aPoint, 0, s), maxScore);
      }
    }
  }

  /**
   * With the bar not yet raised, the outer scan finds a pairing as soon as
   * an available point p at position pos or later has an available partner q.
   */
  lemma {:induction false} ScanAFinds(d: PairState, n: nat, available: seq<bool>, aIndex: nat, s: Scan,
                                      maxScore: int, pos: nat, q: nat)
    requires Good(d, n, maxScore) && |available| == n && aIndex <= pos < n && q < n
    requires GoodCache(s.best, n, maxScore) && Unraised(s)
    requires available[d.aSorted[pos]] && available[q] && d.aSorted[pos] != q
    ensures ScanA(d, n, available, aIndex, s).best.score > 0.0
    decreases n - aIndex
  {
    var aPoint := d.aSorted[aIndex];
    if s.best.score > 0.0 {
      ScanAKeeps(d, n, available, aIndex, s, maxScore);
    } else if aIndex == pos {
      assert !(d.aScore[aPoint] as real + d.maxBScore < s.mustBeOver);
      var r := ScanB(d, n, available, aPoint, 0, s);
      var qPos := RankedFind(d.bSorted, n, q);
      ScanBFinds(d, n, available, aPoint, 0, s, maxScore, qPos);
      ScanBKeeps(d, n, available, aPoint, 0, s, maxScore);
      ScanAKeeps(d, n, available, aIndex + 1, r, maxScore);
    } else if d.aScore[aPoint] as real + d.maxBScore < s.mustBeOver || !available[aPoint] {
      ScanAFinds(d, n, available, aIndex + 1, s, maxScore, pos, q);
    } else {
      ScanBKeeps(d, n, available, aPoint, 0, s, maxScore);
      ScanAFinds(d, n, available, aIndex + 1, ScanB(d, n, available, aPoint, 0, s), maxScore, pos, q);
    }
  }

  /** scoreAvailable keeps the cache good. */
  lemma BestAvailableGood(d: PairState, n: nat, cache: Best, available: seq<bool>, mustBeOver: real, maxScore: int)
    requires Good(d, n, maxScore) && |available| == n && GoodCache(cache, n, maxScore)
    ensures GoodCache(BestAvailable(d, n, cache, available, mustBeOver), n, maxScore)
  {
    if cache.score <= 0.0 && d.maxAScore + d.maxBScore >= mustBeOver {
      ScanAKeeps(d, n, available, 0, Scan(Best(-1.0, cache.a, cache.b), mustBeOver), maxScore);
    }
  }

  /**
   * Called with the bar at -1 while two distinct points are available,
   * scoreAvailable always ends with a positive score.
   */
  lemma BestAvailableFinds(d: PairState, n: nat, cache: Best, available: seq<bool>, maxScore: int, p: nat, q: nat)
    requires Good(d, n, maxScore) && |available| == n && GoodCache(cache, n, maxScore)
    requires p < n && q < n && p != q && available[p] && available[q]
    ensures BestAvailable(d, n, cache, available, -1.0).score > 0.0
  {
    if cache.score <= 0.0 {
      var pos := RankedFind(d.aSorted, n, p);
      ScanAFinds(d, n, available, 0, Scan(Best(-1.0, cache.a, cache.b), -1.0), maxScore, pos, q);
    }
  }

  // ---------------------------------------------------------------------------
  // getMatchScore: choosing the best pair, round after round

  /** The number of entries still set (remaining pairs, or candidate points not yet eaten). */
  function CountTrue(s: seq<bool>): nat {
    if |s| == 0 then 0 else CountTrue(s[..|s| - 1]) + (if s[|s| - 1] then 1 else 0)
  }

  lemma {:induction false} CountAllTrue(s: seq<bool>)
    requires forall i :: 0 <= i < |s| ==> s[i]
    ensures CountTrue(s) == |s|
  {
    if |s| > 0 {
      CountAllTrue(s[..|s| - 1]);
    }
  }

  /** Clearing an entry lowers the count by one exactly when the entry was set. */
  lemma {:induction false} CountClear(s: seq<bool>, i: nat)
    requires i < |s|
    ensures CountTrue(s[i := false]) == CountTrue(s) - (if s[i] then 1 else 0)
  {
    if i < |s| - 1 {
      assert s[i := false][..|s| - 1] == s[..|s| - 1][i := false];
      CountClear(s[..|s| - 1], i);
    } else {
      assert s[i := false][..|s| - 1] == s[..|s| - 1];
    }
  }

  lemma {:induction false} OneTrue(s: seq<bool>) returns (k: nat)
    requires CountTrue(s) > 0
    ensures k < |s| && s[k]
  {
    if s[|s| - 1] {
      k := |s| - 1;
    } else {
      k := OneTrue(s[..|s| - 1]);
    }
  }

  lemma TwoTrue(s: seq<bool>) returns (p: nat, q: nat)
    requires CountTrue(s) >= 2
    ensures p < |s| && q < |s| && p != q && s[p] && s[q]
  {
    p := OneTrue(s);
    CountClear(s, p);
    q := OneTrue(s[p := false]);
  }

  /** The pair states of every drawn pair, all against the same n candidate points. */
  predicate AllShaped(states: seq<PairState>, n: nat) {
    forall i :: 0 <= i < |states| ==> Shaped(states[i], n)
  }

  predicate AllGood(states: seq<PairState>, n: nat, maxScore: int) {
    forall i :: 0 <= i < |states| ==> Good(states[i], n, maxScore)
  }

  /** One round's scan over the drawn pairs: the caches as updated, and the best pair so far with its score. */
  datatype Selection = Selection(caches: seq<Best>, index: int, score: real)

  /**
   * The inner loop of getMatchScore from drawn pair i on: each remaining pair
   * is asked for its best available pairing that beats the best so far;
   * a strictly better one becomes the best pair.
   */
  function SelectFrom(states: seq<PairState>, n: nat, remaining: seq<bool>, available: seq<bool>, i: nat, sel: Selection): (r: Selection)
    requires AllShaped(states, n) && |remaining| == |states| && |available| == n
    requires |sel.caches| == |states| && i <= |states|
    ensures |r.caches| == |states|
    decreases |states| - i
  {
    if i == |states| then sel
    else if !remaining[i] then SelectFrom(states, n, remaining, available, i + 1, sel)
    else
      var c := BestAvailable(states[i], n, sel.caches[i], available, sel.score);
      SelectFrom(states, n, remaining, available, i + 1,
                 if c.score > sel.score then Selection(sel.caches[i := c], i, c.score)
                 else Selection(sel.caches[i := c], sel.index, sel.score))
  }

  method SelectPair(states: seq<PairState>, n: nat, caches: array<Best>, remaining: array<bool>, available: array<bool>)
    returns (index: int, score: real)
    requires AllShaped(states, n) && caches.Length == |states| && remaining.Length == |states| && available.Length == n
    modifies caches
    ensures var r := SelectFrom(states, n, remaining[..], available[..], 0, Selection(old(caches[..]), -1, -1.0));
      caches[..] == r.caches && index == r.index && score == r.score
  {
    index := -1;
    score := -1.0;
    for i := 0 to |states|
      invariant SelectFrom(states, n, remaining[..], available[..], 0, Selection(old(caches[..]), -1, -1.0))
             == SelectFrom(states, n, remaining[..], available[..], i, Selection(caches[..], index, score))
    {
      if !remaining[i] {
        continue;
      }
      ghost var before := caches[..];
      var c := ScoreAvailable(states[i], n, caches[i], available, score);
      caches[i] := c;
      assert caches[..] == before[i := c];
      if c.score > score {
        index := i;
        score := c.score;
      }
    }
  }

  /** -1 until a pair is chosen; then a remaining pair, chosen earlier, whose cache holds its positive score. */
  predicate Chosen(sel: Selection, remaining: seq<bool>, i: nat, maxScore: int)
    requires |sel.caches| == |remaining|
  {
    (sel.index == -1 && sel.score == -1.0)
    || (0 <= sel.index < i && sel.index < |remaining| && remaining[sel.index]
        && 0.0 < sel.score <= 2.0 * maxScore as real && sel.caches[sel.index].score == sel.score)
  }

  lemma {:induction false} SelectKeeps(states: seq<PairState>, n: nat, remaining: seq<bool>, available: seq<bool>, i: nat,
                                       sel: Selection, maxScore: int)
    requires AllGood(states, n, maxScore) && |remaining| == |states| && |available| == n
    requires |sel.caches| == |states| && i <= |states|
    requires forall k :: 0 <= k < |states| ==> GoodCache(sel.caches[k], n, maxScore)
    requires Chosen(sel, remaining, i, maxScore)
    ensures var r := SelectFrom(states, n, remaining, available, i, sel);
      (forall k :: 0 <= k < |states| ==> GoodCache(r.caches[k], n, maxScore))
      && Chosen(r, remaining, |states|, maxScore) && (sel.index >= 0 ==> r.index >= 0)
    decreases |states| - i
  {
    if i < |states| {
      if !remaining[i] {
        SelectKeeps(states, n, remaining, available, i + 1, sel, maxScore);
      } else {
        var c := BestAvailable(states[i], n, sel.caches[i], available, sel.score);
        BestAvailableGood(states[i], n, sel.caches[i], available, sel.score, maxScore);
        var next := if c.score > sel.score then Selection(sel.caches[i := c], i, c.score)
                    else Selection(sel.caches[i := c], sel.index, sel.score);
        assert Chosen(next, remaining, i + 1, maxScore);
        SelectKeeps(states, n, remaining, available, i + 1, next, maxScore);
      }
    }
  }

  /**
   * With a remaining pair k not yet passed and two distinct candidate points
   * available, every round chooses a pair: bestPairIndex is never -1.
   */
  lemma {:induction false} SelectFinds(states: seq<PairState>, n: nat, remaining: seq<bool>, available: seq<bool>, i: nat,
                                       sel: Selection, maxScore: int, k: nat, p: nat, q: nat)
    requires AllGood(states, n, maxScore) && |remaining| == |states| && |available| == n
    requires |sel.caches| == |states| && i <= k < |states| && remaining[k]
    requires forall j :: 0 <= j < |states| ==> GoodCache(sel.caches[j], n, maxScore)
    requires Chosen(sel, remaining, i, maxScore)
    requires p < n && q < n && p != q && available[p] && available[q]
    ensures SelectFrom(states, n, remaining, available, i, sel).index >= 0
    decreases |states| - i
  {
    if sel.index >= 0 {
      SelectKeeps(states, n, remaining, available, i, sel, maxScore);
    } else if !remaining[i] {
      SelectFinds(states, n, remaining, available, i + 1, sel, maxScore, k, p, q);
    } else {
      var c := BestAvailable(states[i], n, sel.caches[i], available, sel.score);
      BestAvailableGood(states[i], n, sel.caches[i], available, sel.score, maxScore);
      BestAvailableFinds(states[i], n, sel.caches[i], available, maxScore, p, q);
      var next := Selection(sel.caches[i := c], i, c.score);
      assert SelectFrom(states, n, remaining, available, i, sel) == SelectFrom(states, n, remaining, available, i + 1, next);
      SelectKeeps(states, n, remaining, available, i + 1, next, maxScore);
    }
  }

  /** The end of the greedy matching: the summed score and the number of pairs matched. */
  datatype Outcome = Outcome(total: real, matched: int)

  /**
   * The while loop of getMatchScore: while candidate points and drawn pairs
   * are left, the chosen pair and its two points are eaten and its score added.
   */
  function Run(states: seq<PairState>, n: nat, caches: seq<Best>, remaining: seq<bool>, available: seq<bool>,
               pairsLeft: nat, pointsLeft: int, total: real): Outcome
    requires AllShaped(states, n) && |caches| == |states| && |remaining| == |states| && |available| == n
    requires pairsLeft <= |states|
    decreases pairsLeft
  {
    if pointsLeft <= 0 || pairsLeft == 0 then Outcome(total, |states| - pairsLeft)
    else
      var sel := SelectFrom(states, n, remaining, available, 0, Selection(caches, -1, -1.0));
      if !(0 <= sel.index < |states|) then Outcome(total, |states| - pairsLeft)
      else
        var c := sel.caches[sel.index];
        if !(0 <= c.a < n && 0 <= c.b < n) then Outcome(total, |states| - pairsLeft)
        else Run(states, n, sel.caches, remaining[sel.index := false], available[c.a := false][c.b := false],
                 pairsLeft - 1, pointsLeft - 2, total + sel.score)
  }

  /** bestScore starts at -1 for every pair: nothing cached yet. */
  function FreshCaches(count: nat): (caches: seq<Best>)
    ensures |caches| == count && forall k :: 0 <= k < count ==> caches[k] == Best(-1.0, 0, 0)
  {
    seq(count, _ => Best(-1.0, 0, 0))
  }

  function AllTrue(count: nat): (flags: seq<bool>)
    ensures |flags| == count && forall k :: 0 <= k < count ==> flags[k]
  {
    seq(count, _ => true)
  }

  /** The whole greedy matching: every pair remaining, every candidate point available, nothing cached. */
  function Matching(states: seq<PairState>, n: nat): Outcome
    requires AllShaped(states, n)
  {
    Run(states, n, FreshCaches(|states|), AllTrue(|states|), AllTrue(n), |states|, n, 0.0)
  }

  /**
   * The rest of a run, from a state reached after some rounds: every round
   * matches one pair, so the run ends with min(drawn pairs, candidate points / 2)
   * matched, and each matched pair adds a score in (0, 2 × maxScore].
   */
  lemma {:induction false} RunBounds(states: seq<PairState>, n: nat, maxScore: int, caches: seq<Best>,
                                     remaining: seq<bool>, available: seq<bool>, pairsLeft: nat, total: real)
    requires AllGood(states, n, maxScore) && n % 2 == 0
    requires |caches| == |states| && |remaining| == |states| && |available| == n
    requires pairsLeft <= |states| && n - 2 * (|states| - pairsLeft) >= 0
    requires CountTrue(remaining) == pairsLeft && CountTrue(available) >= n - 2 * (|states| - pairsLeft)
    requires forall k :: 0 <= k < |states| ==> GoodCache(caches[k], n, maxScore)
    requires pairsLeft == |states| ==> total == 0.0
    requires pairsLeft < |states| ==> 0.0 < total <= (2 * maxScore * (|states| - pairsLeft)) as real
    ensures var outcome := Run(states, n, caches, remaining, available, pairsLeft, n - 2 * (|states| - pairsLeft), total);
      && outcome.matched == Min(|states|, n / 2)
      && (outcome.matched == 0 ==> outcome.total == 0.0)
      && (outcome.matched > 0 ==> 0.0 < outcome.total <= (2 * maxScore * outcome.matched) as real)
    decreases pairsLeft
  {
    var pointsLeft := n - 2 * (|states| - pairsLeft);
    if pointsLeft > 0 && pairsLeft > 0 {
      assert pointsLeft >= 2;
      RoundFacts(states, n, maxScore, caches, remaining, available, pairsLeft, pointsLeft, total);
      var sel := SelectFrom(states, n, remaining, available, 0, Selection(caches, -1, -1.0));
      var c := sel.caches[sel.index];
      AddBound(total, sel.score, maxScore, |states| - pairsLeft);
      RunBounds(states, n, maxScore, sel.caches, remaining[sel.index := false], available[c.a := false][c.b := false],
                pairsLeft - 1, total + sel.score);
    }
  }

  /** The whole matching ends with min(drawn pairs, candidate points / 2) pairs matched, each adding (0, 2 × maxScore]. */
  lemma MatchingBounds(states: seq<PairState>, n: nat, maxScore: int)
    requires AllGood(states, n, maxScore) && n % 2 == 0
    ensures var outcome := Matching(states, n);
      && outcome.matched == Min(|states|, n / 2)
      && (outcome.matched == 0 ==> outcome.total == 0.0)
      && (outcome.matched > 0 ==> 0.0 < outcome.total <= (2 * maxScore * outcome.matched) as real)
  {
    CountAllTrue(AllTrue(|states|));
    CountAllTrue(AllTrue(n));
    RunBounds(states, n, maxScore, FreshCaches(|states|), AllTrue(|states|), AllTrue(n), |states|, 0.0);
  }

  /**
   * The greedy matching of getMatchScore. Every round matches one pair, so
   * the loop runs min(drawn pairs, candidate points / 2) times; the total is
   * 0 when nothing matched and otherwise at most 2 × maxScore per matched pair.
   */
  method Greedy(states: seq<PairState>, n: nat, maxScore: int) returns (outcome: Outcome)
    requires AllGood(states, n, maxScore) && n % 2 == 0
    ensures outcome == Matching(states, n)
    ensures outcome.matched == Min(|states|, n / 2)
    ensures outcome.matched == 0 ==> outcome.total == 0.0
    ensures outcome.matched > 0 ==> 0.0 < outcome.total <= (2 * maxScore * outcome.matched) as real
  {
    var pairCount := |states|;
    var caches := new Best[pairCount](_ => Best(-1.0, 0, 0));
    var remaining := new bool[pairCount](_ => true);
    var available := new bool[n](_ => true);
    assert caches[..] == FreshCaches(pairCount);
    assert remaining[..] == AllTrue(pairCount);
    assert available[..] == AllTrue(n);
    CountAllTrue(remaining[..]);
    CountAllTrue(available[..]);
    outcome := MatchPairs(states, n, maxScore, caches, remaining, available);
  }

  /** The while loop of getMatchScore, from every pair remaining and every candidate point available. */
  method MatchPairs(states: seq<PairState>, n: nat, maxScore: int, caches: array<Best>, remaining: array<bool>,
                    available: array<bool>)
    returns (outcome: Outcome)
    requires AllGood(states, n, maxScore) && n % 2 == 0
    requires caches.Length == |states| && remaining.Length == |states| && available.Length == n && remaining != available
    requires CountTrue(remaining[..]) == |states| && CountTrue(available[..]) == n
    requires forall k :: 0 <= k < |states| ==> GoodCache(caches[k], n, maxScore)
    modifies caches, remaining, available
    ensures outcome == Run(states, n, old(caches[..]), old(remaining[..]), old(available[..]), |states|, n, 0.0)
    ensures outcome.matched == Min(|states|, n / 2)
    ensures outcome.matched == 0 ==> outcome.total == 0.0
    ensures outcome.matched > 0 ==> 0.0 < outcome.total <= (2 * maxScore * outcome.matched) as real
  {
    var pairCount := |states|;
    var pairsLeft := pairCount;
    var pointsLeft := n;
    var totalScore := 0.0;
    ghost var initial := Run(states, n, caches[..], remaining[..], available[..], pairsLeft, pointsLeft, totalScore);
    RunBounds(states, n, maxScore, caches[..], remaining[..], available[..], pairsLeft, totalScore);
    while pointsLeft > 0 && pairsLeft > 0
      invariant 0 <= pairsLeft <= pairCount && pointsLeft == n - 2 * (pairCount - pairsLeft) && pointsLeft >= 0
      invariant CountTrue(remaining[..]) == pairsLeft && CountTrue(available[..]) >= pointsLeft
      invariant forall k :: 0 <= k < pairCount ==> GoodCache(caches[k], n, maxScore)
      invariant initial == Run(states, n, caches[..], remaining[..], available[..], pairsLeft, pointsLeft, totalScore)
      decreases pairsLeft
    {
      var bestPairScore := EatBestPair(states, n, maxScore, caches, remaining, available, pairsLeft, pointsLeft, totalScore);
      totalScore := totalScore + bestPairScore;
      pairsLeft := pairsLeft - 1;
      pointsLeft := pointsLeft - 2;
    }
    outcome := Outcome(totalScore, pairCount - pairsLeft);
  }

  lemma AddBound(total: real, score: real, maxScore: int, matched: nat)
    requires total <= (2 * maxScore * matched) as real && score <= 2.0 * maxScore as real
    ensures total + score <= (2 * maxScore * (matched + 1)) as real
  {
    assert 2 * maxScore * (matched + 1) == 2 * maxScore * matched + 2 * maxScore;
  }

  /** One round of the while loop of getMatchScore: choose the best pair, eat it and its two points. */
  method EatBestPair(states: seq<PairState>, n: nat, maxScore: int, caches: array<Best>, remaining: array<bool>,
                     available: array<bool>, ghost pairsLeft: nat, ghost pointsLeft: int, ghost total: real)
    returns (bestPairScore: real)
    requires AllGood(states, n, maxScore)
    requires caches.Length == |states| && remaining.Length == |states| && available.Length == n && remaining != available
    requires 0 < pairsLeft <= |states| && pointsLeft > 0
    requires CountTrue(remaining[..]) > 0 && CountTrue(available[..]) >= 2
    requires forall k :: 0 <= k < |states| ==> GoodCache(caches[k], n, maxScore)
    modifies caches, remaining, available
    ensures forall k :: 0 <= k < |states| ==> GoodCache(caches[k], n, maxScore)
    ensures CountTrue(remaining[..]) == CountTrue(old(remaining[..])) - 1
    ensures CountTrue(available[..]) >= CountTrue(old(available[..])) - 2
    ensures 0.0 < bestPairScore <= 2.0 * maxScore as real
    ensures Run(states, n, old(caches[..]), old(remaining[..]), old(available[..]), pairsLeft, pointsLeft, total)
         == Run(states, n, caches[..], remaining[..], available[..], pairsLeft - 1, pointsLeft - 2, total + bestPairScore)
  {
    ghost var remaining0, available0 := remaining[..], available[..];
    RoundFacts(states, n, maxScore, caches[..], remaining0, available0, pairsLeft, pointsLeft, total);
    var bestPairIndex;
    bestPairIndex, bestPairScore := SelectPair(states, n, caches, remaining, available);
    var aIndex, bIndex := caches[bestPairIndex].a, caches[bestPairIndex].b;
    remaining[bestPairIndex] := false;
    available[aIndex] := false;
    available[bIndex] := false;
    assert remaining[..] == remaining0[bestPairIndex := false];
    assert available[..] == available0[aIndex := false][bIndex := false];
  }

  /**
   * What one round of the loop finds when a pair remains and two points are
   * available: a remaining pair with a good score and two distinct points,
   * and the rest of the run from the state that eats them.
   */
  lemma RoundFacts(states: seq<PairState>, n: nat, maxScore: int, caches: seq<Best>, remaining: seq<bool>,
                   available: seq<bool>, pairsLeft: nat, pointsLeft: int, total: real)
    requires AllGood(states, n, maxScore)
    requires |caches| == |states| && |remaining| == |states| && |available| == n
    requires 0 < pairsLeft <= |states| && pointsLeft > 0
    requires CountTrue(remaining) > 0 && CountTrue(available) >= 2
    requires forall k :: 0 <= k < |states| ==> GoodCache(caches[k], n, maxScore)
    ensures var sel := SelectFrom(states, n, remaining, available, 0, Selection(caches, -1, -1.0));
      && 0 <= sel.index < |states| && remaining[sel.index]
      && 0.0 < sel.score <= 2.0 * maxScore as real
      && |sel.caches| == |states| && (forall k :: 0 <= k < |states| ==> GoodCache(sel.caches[k], n, maxScore))
      && var c := sel.caches[sel.index];
      && 0 <= c.a < n && 0 <= c.b < n && c.a != c.b
      && CountTrue(remaining[sel.index := false]) == CountTrue(remaining) - 1
      && CountTrue(available[c.a := false][c.b := false]) >= CountTrue(available) - 2
      && Run(states, n, caches, remaining, available, pairsLeft, pointsLeft, total)
         == Run(states, n, sel.caches, remaining[sel.index := false], available[c.a := false][c.b := false],
                pairsLeft - 1, pointsLeft - 2, total + sel.score)
  {
    var k := OneTrue(remaining);
    var p, q := TwoTrue(available);
    var sel0 := Selection(caches, -1, -1.0);
    SelectFinds(states, n, remaining, available, 0, sel0, maxScore, k, p, q);
    SelectKeeps(states, n, remaining, available, 0, sel0, maxScore);
    var sel := SelectFrom(states, n, remaining, available, 0, sel0);
    var c := sel.caches[sel.index];
    CountClear(remaining, sel.index);
    CountClear(available, c.a);
    CountClear(available[c.a := false], c.b);
  }

  // ---------------------------------------------------------------------------
  // Scaling and the stroke-count penalty

  function Power(b: real, e: nat): real {
    if e == 0 then 1.0 else Power(b, e - 1) * b
  }

  lemma {:induction false} PowerRange(b: real, e: nat)
    requires 0.0 < b <= 1.0
    ensures 0.0 < Power(b, e) <= 1.0
  {
    if e > 0 {
      PowerRange(b, e - 1);
      assert Power(b, e - 1) * b <= Power(b, e - 1) * 1.0;
    }
  }

  /** The two loops that multiply by 0.98 once per stroke of difference between the two counts. */
  method ApplyPenalty(total: real, drawnCount: int, otherCount: int) returns (r: real)
    ensures r == total * Power(ScoreMultiWrongCount, Abs(drawnCount - otherCount))
  {
    r := total;
    var drawnLength := drawnCount;
    while drawnLength < otherCount
      invariant drawnCount <= otherCount ==> drawnCount <= drawnLength <= otherCount
      invariant drawnCount > otherCount ==> drawnLength == drawnCount
      invariant r == total * Power(ScoreMultiWrongCount, drawnLength - drawnCount)
    {
      r := r * ScoreMultiWrongCount;
      drawnLength := drawnLength + 1;
    }
    while drawnLength > otherCount
      invariant otherCount <= drawnLength
      invariant drawnCount <= otherCount ==> drawnLength == otherCount
      invariant drawnCount > otherCount ==> drawnLength <= drawnCount
      invariant r == total * Power(ScoreMultiWrongCount, if drawnCount <= otherCount then otherCount - drawnCount else drawnCount - drawnLength)
    {
      r := r * ScoreMultiWrongCount;
      drawnLength := drawnLength - 1;
    }
  }

  // ---------------------------------------------------------------------------
  // The comparer

  /**
   * A comparer built once for the drawn kanji: its pairs (one per stroke) and
   * its laid-out points with their counts.
   */
  class FuzzyComparer {
    const drawnPairs: seq<Pair>
    const drawnPoints: seq<Point>

    predicate Valid() {
      PairIndexed(drawnPairs) && drawnPoints == PairPoints(drawnPairs)
    }

    constructor (drawn: seq<Stroke>)
      ensures Valid()
      ensures drawnPairs == PairsOf(drawn) && drawnPoints == PairPoints(PairsOf(drawn))
    {
      var pairs := ConvertKanjiInfo(drawn);
      var points := GetPairPoints(pairs);
      drawnPairs, drawnPoints := pairs, points;
    }

    /**
     * getMatchScore: a score from 0 to 100, lowered by 2% for each stroke of
     * difference in count, and NaN (0 / 0) when either kanji has no strokes.
     * The score arrays are sized for at most drawn + 2 candidate strokes.
     */
    method GetMatchScore(other: Option<seq<Stroke>>) returns (r: Result<FloatValue>)
      requires Valid()
      requires other.Some? && |drawnPairs| > 0 ==> |other.value| <= |drawnPairs| + 2
      ensures other.None? ==> r == Failure(IllegalState)
      ensures other.Some? ==> r == Success(FuzzyScore(drawnPairs, other.value))
      ensures other.Some? ==> ScoreInRange(r.value, |drawnPairs|, |other.value|)
    {
      if other.None? {
        return Failure(IllegalState);
      }
      var otherPairs := ConvertKanjiInfo(other.value);
      var otherPoints := GetPairPoints(otherPairs);
      var maxScore := Max(|drawnPoints|, |otherPoints|) * 6;
      assert maxScore == MaxScoreFor(|drawnPairs|, |other.value|);
      var states := ScoreAll(drawnPairs, drawnPoints, otherPairs, otherPoints, maxScore);
      var outcome := Greedy(states, |otherPoints|, maxScore);
      assert outcome == FuzzyOutcome(drawnPairs, other.value);
      var score := FinalScore(outcome, maxScore, |drawnPairs|, |otherPairs|);
      r := Success(score);
      FuzzyScoreRange(drawnPairs, other.value);
    }
  }

  // ---------------------------------------------------------------------------
  // The score as a function of the two kanji

  /**
   * The pair state Pair.score leaves for drawn pair p: its a point's scores and
   * ranking, its b point's ranking, the pairing matrix and the two running maxima.
   */
  function PairStateOf(drawnPoints: seq<Point>, p: nat, otherPoints: seq<Point>, maxScore: int): PairState
    requires 2 * p + 1 < |drawnPoints|
  {
    var aScore := PointScores(drawnPoints[2 * p].counts, otherPoints, maxScore);
    var bScore := PointScores(drawnPoints[2 * p + 1].counts, otherPoints, maxScore);
    PairState(aScore, Ranking(aScore), Ranking(bScore), PairMatrix(aScore, bScore, otherPoints),
              MaxScoreOf(aScore), MaxScoreOf(bScore))
  }

  /** The pair states of the first pairCount drawn pairs. */
  function ScoredStates(pairCount: nat, drawnPoints: seq<Point>, otherPoints: seq<Point>, maxScore: int)
    : (states: seq<PairState>)
    requires 2 * pairCount <= |drawnPoints|
    ensures |states| == pairCount
  {
    seq(pairCount, p requires 0 <= p < pairCount => PairStateOf(drawnPoints, p, otherPoints, maxScore))
  }

  /**
   * The end of getMatchScore: the total over 2 × maxScore × pairs matched
   * (0 / 0, so NaN, when nothing matched), times 0.98 per stroke of
   * difference in count, times 100.
   */
  function FinalValue(outcome: Outcome, maxScore: int, drawnCount: int, otherCount: int): FloatValue {
    var denominator := 2 * maxScore * outcome.matched;
    if denominator == 0 then NaN
    else Finite(outcome.total / denominator as real * Power(ScoreMultiWrongCount, Abs(drawnCount - otherCount)) * 100.0)
  }

  /** getMatchScore's maxScore: 6 × the larger point count. */
  function MaxScoreFor(drawnCount: nat, otherCount: nat): int {
    Max(2 * drawnCount, 2 * otherCount) * 6
  }

  /**
   * The greedy matching of a candidate kanji's strokes against the drawn
   * pairs: lay out both kanji's points, score every drawn point against
   * every candidate point, score every drawn pair, then match greedily.
   */
  function FuzzyOutcome(drawnPairs: seq<Pair>, other: seq<Stroke>): Outcome
    requires PairIndexed(drawnPairs)
  {
    var otherPairs := PairsOf(other);
    var maxScore := MaxScoreFor(|drawnPairs|, |other|);
    ScoredStatesGood(drawnPairs, otherPairs, maxScore);
    Matching(ScoredStates(|drawnPairs|, PairPoints(drawnPairs), PairPoints(otherPairs), maxScore), 2 * |other|)
  }

  /** The FUZZY score of a candidate kanji's strokes against the drawn pairs: the matching, scaled. */
  function FuzzyScore(drawnPairs: seq<Pair>, other: seq<Stroke>): FloatValue
    requires PairIndexed(drawnPairs)
  {
    FinalValue(FuzzyOutcome(drawnPairs, other), MaxScoreFor(|drawnPairs|, |other|), |drawnPairs|, |other|)
  }

  /** matched pairs were matched, each adding a score in (0, 2 × maxScore] to the total. */
  predicate MatchedWithin(outcome: Outcome, maxScore: int, matched: nat) {
    && outcome.matched == matched
    && (matched == 0 ==> outcome.total == 0.0)
    && (matched > 0 ==> 0.0 < outcome.total <= (2 * maxScore * matched) as real)
  }

  /** min(drawn strokes, candidate strokes) pairs are matched, each adding a score in (0, 2 × maxScore]. */
  lemma FuzzyOutcomeBounds(drawnPairs: seq<Pair>, other: seq<Stroke>)
    requires PairIndexed(drawnPairs)
    ensures MatchedWithin(FuzzyOutcome(drawnPairs, other), MaxScoreFor(|drawnPairs|, |other|), Min(|drawnPairs|, |other|))
  {
    var otherPairs := PairsOf(other);
    var maxScore := MaxScoreFor(|drawnPairs|, |other|);
    ScoredStatesGood(drawnPairs, otherPairs, maxScore);
    MatchingBounds(ScoredStates(|drawnPairs|, PairPoints(drawnPairs), PairPoints(otherPairs), maxScore), 2 * |other|, maxScore);
  }

  /** Every drawn pair's state is good: positive point scores, full rankings, pairings in (0, 2 × maxScore]. */
  lemma ScoredStatesGood(drawnPairs: seq<Pair>, otherPairs: seq<Pair>, maxScore: int)
    requires PairIndexed(drawnPairs) && PairIndexed(otherPairs)
    requires maxScore == 6 * Max(2 * |drawnPairs|, 2 * |otherPairs|)
    ensures AllGood(ScoredStates(|drawnPairs|, PairPoints(drawnPairs), PairPoints(otherPairs), maxScore),
                    2 * |otherPairs|, maxScore)
  {
    var drawnPoints, otherPoints := PairPoints(drawnPairs), PairPoints(otherPairs);
    forall k | 0 <= k < |otherPoints|
      ensures Balanced(otherPoints[k].counts, |otherPoints| - 1)
    {
      PairPointsShape(otherPairs, k);
    }
    forall p | 0 <= p < |drawnPairs|
      ensures Good(PairStateOf(drawnPoints, p, otherPoints, maxScore), |otherPoints|, maxScore)
    {
      PairStateOfGood(drawnPairs, p, otherPoints, maxScore);
    }
  }

  lemma PairStateOfGood(drawnPairs: seq<Pair>, p: nat, otherPoints: seq<Point>, maxScore: int)
    requires PairIndexed(drawnPairs) && p < |drawnPairs|
    requires forall k :: 0 <= k < |otherPoints| ==> Balanced(otherPoints[k].counts, |otherPoints| - 1)
    requires maxScore == 6 * Max(2 * |drawnPairs|, |otherPoints|)
    ensures Good(PairStateOf(PairPoints(drawnPairs), p, otherPoints, maxScore), |otherPoints|, maxScore)
  {
    var drawnPoints := PairPoints(drawnPairs);
    PairPointsShape(drawnPairs, 2 * p);
    PairPointsShape(drawnPairs, 2 * p + 1);
    var d := PairStateOf(drawnPoints, p, otherPoints, maxScore);
    var bScore := PointScores(drawnPoints[2 * p + 1].counts, otherPoints, maxScore);
    PointScoresInRange(drawnPoints[2 * p].counts, otherPoints, |drawnPoints|, maxScore);
    PointScoresInRange(drawnPoints[2 * p + 1].counts, otherPoints, |drawnPoints|, maxScore);
    RankingComplete(d.aScore);
    RankingComplete(bScore);
    MaxScoreOfBounds(d.aScore);
    MaxScoreOfBounds(bScore);
    PairStateGood(d, |otherPoints|, maxScore, bScore, otherPoints);
  }

  /**
   * A getMatchScore result: NaN exactly when either kanji has no strokes,
   * otherwise in (0, 100], lowered by 2% per stroke of difference in count.
   */
  predicate ScoreInRange(v: FloatValue, drawnCount: nat, otherCount: nat) {
    && (v.NaN? <==> drawnCount == 0 || otherCount == 0)
    && (v.Finite? ==> 0.0 < v.value <= 100.0 * Power(ScoreMultiWrongCount, Abs(drawnCount - otherCount)))
  }

  /** The FUZZY score is NaN exactly when either kanji has no strokes, and otherwise in range. */
  lemma FuzzyScoreRange(drawnPairs: seq<Pair>, other: seq<Stroke>)
    requires PairIndexed(drawnPairs)
    ensures ScoreInRange(FuzzyScore(drawnPairs, other), |drawnPairs|, |other|)
  {
    FuzzyOutcomeBounds(drawnPairs, other);
    MatchedValueRange(FuzzyOutcome(drawnPairs, other), MaxScoreFor(|drawnPairs|, |other|), |drawnPairs|, |other|);
  }

  /** With min(drawn, other) pairs matched, the scaled score is NaN exactly when either count is 0. */
  lemma MatchedValueRange(outcome: Outcome, maxScore: int, drawnCount: nat, otherCount: nat)
    requires MatchedWithin(outcome, maxScore, Min(drawnCount, otherCount))
    ensures ScoreInRange(FinalValue(outcome, maxScore, drawnCount, otherCount), drawnCount, otherCount)
  {
    FinalValueRange(outcome, maxScore, drawnCount, otherCount);
  }

  /** Dividing by 2 × maxScore × matched brings the total into (0, 1]; the penalty and × 100 keep it in (0, 100 × weight]. */
  lemma FinalValueRange(outcome: Outcome, maxScore: int, drawnCount: int, otherCount: int)
    requires outcome.matched >= 0
    requires outcome.matched == 0 ==> outcome.total == 0.0
    requires outcome.matched > 0 ==> 0.0 < outcome.total <= (2 * maxScore * outcome.matched) as real
    ensures var v := FinalValue(outcome, maxScore, drawnCount, otherCount);
      && (v.NaN? <==> outcome.matched == 0)
      && (v.Finite? ==> 0.0 < v.value <= 100.0 * Power(ScoreMultiWrongCount, Abs(drawnCount - otherCount)))
  {
    var denominator := 2 * maxScore * outcome.matched;
    if denominator != 0 {
      var weight := Power(ScoreMultiWrongCount, Abs(drawnCount - otherCount));
      PowerRange(ScoreMultiWrongCount, Abs(drawnCount - otherCount));
      ScaledRange(outcome.total, denominator, weight);
    }
  }

  /** The end of getMatchScore: the division, the two penalty loops, then × 100. */
  method FinalScore(outcome: Outcome, maxScore: int, drawnCount: int, otherCount: int) returns (v: FloatValue)
    requires outcome.matched >= 0
    requires outcome.matched == 0 ==> outcome.total == 0.0
    requires outcome.matched > 0 ==> 0.0 < outcome.total <= (2 * maxScore * outcome.matched) as real
    ensures v == FinalValue(outcome, maxScore, drawnCount, otherCount)
    ensures v.NaN? <==> outcome.matched == 0
    ensures v.Finite? ==> 0.0 < v.value <= 100.0 * Power(ScoreMultiWrongCount, Abs(drawnCount - otherCount))
  {
    FinalValueRange(outcome, maxScore, drawnCount, otherCount);
    var denominator := 2 * maxScore * outcome.matched;
    if denominator == 0 {
      return NaN;
    }
    var totalScore := outcome.total / denominator as real;
    var penalised := ApplyPenalty(totalScore, drawnCount, otherCount);
    v := Finite(penalised * 100.0);
  }

  /**
   * The two scoring loops of getMatchScore: Point.score for every drawn
   * point, then Pair.score for every drawn pair, which reads the scores of
   * its own two points.
   */
  method ScoreAll(drawnPairs: seq<Pair>, drawnPoints: seq<Point>, otherPairs: seq<Pair>, otherPoints: seq<Point>,
                  maxScore: int)
    returns (states: seq<PairState>)
    requires PairIndexed(drawnPairs) && drawnPoints == PairPoints(drawnPairs)
    requires PairIndexed(otherPairs) && otherPoints == PairPoints(otherPairs)
    requires maxScore == 6 * Max(|drawnPoints|, |otherPoints|)
    ensures states == ScoredStates(|drawnPairs|, drawnPoints, otherPoints, maxScore)
    ensures |states| == |drawnPairs| && AllGood(states, |otherPoints|, maxScore)
  {
    var pointScores, pointSorted := ScoreEveryPoint(drawnPoints, otherPoints, maxScore);
    states := ScoreEveryPair(|drawnPairs|, drawnPoints, otherPoints, maxScore, pointScores, pointSorted);
    ScoredStatesGood(drawnPairs, otherPairs, maxScore);
  }

  /** The first scoring loop: Point.score for every drawn point. */
  method ScoreEveryPoint(drawnPoints: seq<Point>, otherPoints: seq<Point>, maxScore: int)
    returns (pointScores: seq<seq<int>>, pointSorted: seq<seq<int>>)
    ensures |pointScores| == |drawnPoints| && |pointSorted| == |drawnPoints|
    ensures forall k :: 0 <= k < |drawnPoints| ==>
      pointScores[k] == PointScores(drawnPoints[k].counts, otherPoints, maxScore) && pointSorted[k] == Ranking(pointScores[k])
  {
    pointScores, pointSorted := [], [];
    for i := 0 to |drawnPoints|
      invariant |pointScores| == i && |pointSorted| == i
      invariant forall k :: 0 <= k < i ==> pointScores[k] == PointScores(drawnPoints[k].counts, otherPoints, maxScore)
      invariant forall k :: 0 <= k < i ==> pointSorted[k] == Ranking(pointScores[k])
    {
      var score, sorted := ScorePoint(drawnPoints[i].counts, otherPoints, maxScore);
      pointScores := pointScores + [score];
      pointSorted := pointSorted + [sorted];
    }
  }

  /** The second scoring loop: Pair.score for every drawn pair, from its two points' scores and rankings. */
  method ScoreEveryPair(pairCount: nat, drawnPoints: seq<Point>, otherPoints: seq<Point>, maxScore: int,
                        pointScores: seq<seq<int>>, pointSorted: seq<seq<int>>)
    returns (states: seq<PairState>)
    requires |drawnPoints| == 2 * pairCount && |pointScores| == |drawnPoints| && |pointSorted| == |drawnPoints|
    requires forall k :: 0 <= k < |drawnPoints| ==>
      pointScores[k] == PointScores(drawnPoints[k].counts, otherPoints, maxScore) && pointSorted[k] == Ranking(pointScores[k])
    ensures states == ScoredStates(pairCount, drawnPoints, otherPoints, maxScore)
  {
    states := [];
    for p := 0 to pairCount
      invariant |states| == p && forall k :: 0 <= k < p ==> states[k] == PairStateOf(drawnPoints, k, otherPoints, maxScore)
    {
      var aScore, bScore := pointScores[2 * p], pointScores[2 * p + 1];
      var scores, maxAScore, maxBScore := ScorePair(aScore, bScore, otherPoints);
      var state := PairState(aScore, pointSorted[2 * p], pointSorted[2 * p + 1], scores, maxAScore, maxBScore);
      assert state == PairStateOf(drawnPoints, p, otherPoints, maxScore);
      states := states + [state];
    }
  }

  /** Pair.score's results with positive point scores and full rankings make a good pair state. */
  lemma PairStateGood(d: PairState, n: nat, maxScore: int, bScore: seq<int>, others: seq<Point>)
    requires |d.aScore| == n && |bScore| == n && |others| == n
    requires RankedPrefix(d.aSorted, n) && RankedPrefix(d.bSorted, n)
    requires forall j :: 0 <= j < n ==> 0 < d.aScore[j] <= maxScore && 0 < bScore[j] <= maxScore
    requires |d.scores| == n && forall a :: 0 <= a < n ==> |d.scores[a]| == n
    requires forall a, b :: 0 <= a < n && 0 <= b < n ==>
      d.scores[a][b] == if a == b then 0.0 else PairEntry(d.aScore, bScore, others, a, b)
    requires MaxOrMinusOne(d.aScore, d.maxAScore) && MaxOrMinusOne(bScore, d.maxBScore)
    ensures Good(d, n, maxScore)
  {
    forall a, b | 0 <= a < n && 0 <= b < n && a != b
      ensures 0.0 < d.scores[a][b] <= 2.0 * maxScore as real
    {
      PairEntryRange(d.aScore, bScore, others, a, b, maxScore);
    }
    if n > 0 {
      assert d.aScore[0] as real <= d.maxAScore;
    }
  }

  /** Dividing by 2 × maxScore × matched brings the total into (0, 1]; the penalty and × 100 keep it in (0, 100 × weight]. */
  lemma ScaledRange(total: real, denominator: int, weight: real)
    requires 0 < denominator && 0.0 < total <= denominator as real
    requires 0.0 < weight <= 1.0
    ensures 0.0 < total / denominator as real * weight * 100.0 <= 100.0 * weight
  {
    var t := total / denominator as real;
    assert 0.0 < t <= 1.0;
    assert t * weight <= 1.0 * weight;
  }
}
