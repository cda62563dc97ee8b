/**
 * The dots comparer: a histogram of the stroke end points over five bands
 * per axis, compared by exact matches (two points each) and then by
 * matches with a neighbouring band (one point each).
 */
module Dots {
  import opened Wrappers
  import opened StrokeGeometry

  const NumRanges: nat := 5

  /** A histogram with no points. */
  const Empty: seq<int> := [0, 0, 0, 0, 0]

  /** The band of a coordinate on one axis of the histogram. */
  function Bucket(v: Coord): (b: nat)
    ensures b < NumRanges
  {
    Band(v, NumRanges)
  }

  // ---------------------------------------------------------------------------
  // Sums

  function Sum(s: seq<int>): int {
    if s == [] then 0 else Sum(s[..|s| - 1]) + s[|s| - 1]
  }

  lemma {:induction false} SumAppend(s: seq<int>, v: int)
    ensures Sum(s + [v]) == Sum(s) + v
  {
    assert (s + [v])[..|s|] == s;
  }

  /** Changing one entry changes the sum by the difference. */
  lemma {:induction false} SumUpdate(s: seq<int>, j: nat, v: int)
    requires j < |s|
    ensures Sum(s[j := v]) == Sum(s) - s[j] + v
  {
    var t := s[j := v];
    if j == |s| - 1 {
      assert t[..|t| - 1] == s[..|s| - 1];
    } else {
      assert t[..|t| - 1] == s[..|s| - 1][j := v];
      SumUpdate(s[..|s| - 1], j, v);
    }
  }

  /** A sum of non-negative entries is non-negative. */
  lemma {:induction false} SumNonNegative(s: seq<int>)
    requires forall i :: 0 <= i < |s| ==> s[i] >= 0
    ensures Sum(s) >= 0
  {
    if s != [] {
      SumNonNegative(s[..|s| - 1]);
    }
  }

  /** A sum of zeros is zero, and a zero sum of non-negative entries has only zeros. */
  lemma {:induction false} SumZero(s: seq<int>)
    requires forall i :: 0 <= i < |s| ==> s[i] >= 0
    ensures Sum(s) == 0 <==> forall i :: 0 <= i < |s| ==> s[i] == 0
  {
    if s != [] {
      SumZero(s[..|s| - 1]);
      SumNonNegative(s[..|s| - 1]);
    }
  }

  // ---------------------------------------------------------------------------
  // fillCounts

  /** Adds one to entry b. */
  function Bump(h: seq<int>, b: nat): seq<int>
    requires b < |h|
  {
    h[b := h[b] + 1]
  }

  /** The histogram h after counting the start and end of every stroke on one axis. */
  function Tally(h: seq<int>, strokes: seq<Stroke>, xAxis: bool): (r: seq<int>)
    requires |h| == NumRanges
    ensures |r| == NumRanges
  {
    if strokes == [] then h
    else
      var s := strokes[|strokes| - 1];
      var before := Tally(h, strokes[..|strokes| - 1], xAxis);
      if xAxis then Bump(Bump(before, Bucket(s.startX)), Bucket(s.endX))
      else Bump(Bump(before, Bucket(s.startY)), Bucket(s.endY))
  }

  /** Every stroke adds exactly two to the histogram of each axis. */
  lemma {:induction false} TallySum(h: seq<int>, strokes: seq<Stroke>, xAxis: bool)
    requires |h| == NumRanges
    ensures Sum(Tally(h, strokes, xAxis)) == Sum(h) + 2 * |strokes|
  {
    if strokes != [] {
      var s := strokes[|strokes| - 1];
      var before := Tally(h, strokes[..|strokes| - 1], xAxis);
      TallySum(h, strokes[..|strokes| - 1], xAxis);
      var b1, b2 := if xAxis then Bucket(s.startX) else Bucket(s.startY),
                    if xAxis then Bucket(s.endX) else Bucket(s.endY);
      SumUpdate(before, b1, before[b1] + 1);
      SumUpdate(Bump(before, b1), b2, Bump(before, b1)[b2] + 1);
    }
  }

  /** Counting never lowers an entry. */
  lemma {:induction false} TallyGrows(h: seq<int>, strokes: seq<Stroke>, xAxis: bool)
    requires |h| == NumRanges
    ensures forall b :: 0 <= b < NumRanges ==> Tally(h, strokes, xAxis)[b] >= h[b]
  {
    if strokes != [] {
      TallyGrows(h, strokes[..|strokes| - 1], xAxis);
    }
  }

  /** fillCounts: increments the band of each stroke's start and end on both axes. */
  method FillCounts(countsX: array<int>, countsY: array<int>, strokes: seq<Stroke>)
    requires countsX.Length == NumRanges && countsY.Length == NumRanges && countsX != countsY
    modifies countsX, countsY
    ensures countsX[..] == Tally(old(countsX[..]), strokes, true)
    ensures countsY[..] == Tally(old(countsY[..]), strokes, false)
  {
    for i := 0 to |strokes|
      invariant countsX[..] == Tally(old(countsX[..]), strokes[..i], true)
      invariant countsY[..] == Tally(old(countsY[..]), strokes[..i], false)
    {
      var s := strokes[i];
      assert strokes[..i + 1][..i] == strokes[..i];
      countsX[Bucket(s.startX)] := countsX[Bucket(s.startX)] + 1;
      countsY[Bucket(s.startY)] := countsY[Bucket(s.startY)] + 1;
      countsX[Bucket(s.endX)] := countsX[Bucket(s.endX)] + 1;
      countsY[Bucket(s.endY)] := countsY[Bucket(s.endY)] + 1;
    }
    assert strokes[..|strokes|] == strokes;
  }

  // ---------------------------------------------------------------------------
  // compareArrays

  function Min(a: int, b: int): int { if a < b then a else b }

  /** Units matched exactly in the first k bands. */
  function ExactSum(c1: seq<int>, c2: seq<int>, k: nat): int
    requires k <= |c1| <= |c2|
  {
    if k == 0 then 0 else ExactSum(c1, c2, k - 1) + Min(c1[k - 1], c2[k - 1])
  }

  /** What is left of each band of c1 after the exact matches. */
  function Left1(c1: seq<int>, c2: seq<int>): (r: seq<int>)
    requires |c1| <= |c2|
    ensures |r| == |c1|
    ensures forall i :: 0 <= i < |c1| ==> r[i] == if c1[i] > c2[i] then c1[i] - c2[i] else 0
  {
    seq(|c1|, i requires 0 <= i < |c1| => if c1[i] > c2[i] then c1[i] - c2[i] else 0)
  }

  /** What is left of each band of c2 after the exact matches. */
  function Left2(c1: seq<int>, c2: seq<int>): (r: seq<int>)
    requires |c1| <= |c2|
    ensures |r| == |c1|
    ensures forall i :: 0 <= i < |c1| ==> r[i] == if c2[i] > c1[i] then c2[i] - c1[i] else 0
  {
    seq(|c1|, i requires 0 <= i < |c1| => if c2[i] > c1[i] then c2[i] - c1[i] else 0)
  }

  /** How much of `remaining` band j of left2 can absorb. */
  function Taken(left2: seq<int>, j: nat, remaining: int): (t: int)
    requires j < |left2|
    ensures remaining > 0 && left2[j] >= 0 ==> 0 <= t <= remaining && t <= left2[j]
  {
    if left2[j] >= remaining then remaining else if left2[j] > 0 then left2[j] else 0
  }

  /** The band to the left of band i (wrapping when asked), or -1. */
  function LeftOf(i: nat, n: nat, wrap: bool): int {
    if i > 0 then i - 1 else if wrap then n - 1 else -1
  }

  /** The band to the right of band i (wrapping when asked), or -1. */
  function RightOf(i: nat, n: nat, wrap: bool): int {
    if i + 1 < n then i + 1 else if wrap then 0 else -1
  }

  /** One side of the neighbour pass: the units taken from band j and the new left2. */
  function TakeFrom(left2: seq<int>, j: int, remaining: int): (r: (int, seq<int>))
    requires j < |left2|
    ensures |r.1| == |left2|
  {
    if j < 0 then (0, left2)
    else
      var t := Taken(left2, j, remaining);
      (t, left2[j := left2[j] - t])
  }

  /** Both sides of the neighbour pass for band i: units gained and the new left2. */
  function NeighbourStep(left1: seq<int>, left2: seq<int>, i: nat, wrap: bool): (r: (int, seq<int>))
    requires |left1| == |left2| && i < |left1|
    ensures |r.1| == |left2|
  {
    var n := |left1|;
    var remaining := left1[i];
    if remaining == 0 then (0, left2)
    else
      var before := TakeFrom(left2, LeftOf(i, n, wrap), remaining);
      if remaining - before.0 > 0 then
        var after := TakeFrom(before.1, RightOf(i, n, wrap), remaining - before.0);
        (before.0 + after.0, after.1)
      else before
  }

  /** The neighbour pass from band i on: units gained and the final left2. */
  function NeighbourFrom(left1: seq<int>, left2: seq<int>, i: nat, wrap: bool): (r: (int, seq<int>))
    requires |left1| == |left2| && i <= |left1|
    ensures |r.1| == |left2|
    decreases |left1| - i
  {
    if i == |left1| then (0, left2)
    else
      var step := NeighbourStep(left1, left2, i, wrap);
      var rest := NeighbourFrom(left1, step.1, i + 1, wrap);
      (step.0 + rest.0, rest.1)
  }

  /** The points of compareArrays: two per exact match, one per neighbour match. */
  function MatchScore(c1: seq<int>, c2: seq<int>, wrap: bool): int
    requires |c1| <= |c2|
  {
    2 * ExactSum(c1, c2, |c1|) + NeighbourFrom(Left1(c1, c2), Left2(c1, c2), 0, wrap).0
  }

  /** compareArrays: the score out of the best a difference in counts allows, as a proportion. */
  function CompareSpec(c1: seq<int>, c2: seq<int>, wrap: bool): real
    requires |c1| <= |c2|
  {
    var total1, total2 := Sum(c1), Sum(c2[..|c1|]);
    if total1 == 0 && total2 == 0 then 1.0
    else
      var maxScore := Min(total1, total2) * 2;
      if maxScore == 0 then 0.0 else MatchScore(c1, c2, wrap) as real / maxScore as real
  }

  /** One side of the neighbour pass on the left2 array. */
  method TakeNeighbour(left2: array<int>, j: int, remaining: int) returns (taken: int)
    requires j < left2.Length
    modifies left2
    ensures (taken, left2[..]) == TakeFrom(old(left2[..]), j, remaining)
  {
    if j < 0 {
      return 0;
    }
    var before := left2[j];
    if before >= remaining {
      taken := remaining;
      left2[j] := before - remaining;
    } else if before > 0 {
      taken := before;
      left2[j] := 0;
    } else {
      taken := 0;
      assert left2[..] == old(left2[..])[j := before - 0];
    }
  }

  /** The first loop of compareArrays: exact matches, totals and leftovers. */
  method ExactPass(counts1: array<int>, counts2: array<int>)
      returns (score: int, total1: int, total2: int, left1: array<int>, left2: array<int>)
    requires counts1.Length <= counts2.Length
    ensures fresh(left1) && fresh(left2) && left1 != left2
    ensures score == ExactSum(counts1[..], counts2[..], counts1.Length)
    ensures total1 == Sum(counts1[..]) && total2 == Sum(counts2[..counts1.Length])
    ensures left1[..] == Left1(counts1[..], counts2[..])
    ensures left2[..] == Left2(counts1[..], counts2[..])
  {
    var n := counts1.Length;
    score := 0;
    left1 := new int[n](_ => 0);
    left2 := new int[n](_ => 0);
    total1, total2 := 0, 0;
    ghost var c1, c2 := counts1[..], counts2[..];
    for i := 0 to n
      invariant total1 == Sum(c1[..i]) && total2 == Sum(c2[..i])
      invariant score == ExactSum(c1, c2, i)
      invariant forall k :: 0 <= k < i ==> left1[k] == Left1(c1, c2)[k] && left2[k] == Left2(c1, c2)[k]
      invariant forall k :: i <= k < n ==> left1[k] == 0 && left2[k] == 0
    {
      var count1, count2 := counts1[i], counts2[i];
      SumAppend(c1[..i], count1);
      SumAppend(c2[..i], count2);
      assert c1[..i + 1] == c1[..i] + [count1];
      assert c2[..i + 1] == c2[..i] + [count2];
      total1 := total1 + count1;
      total2 := total2 + count2;
      if count1 > count2 {
        score := score + count2;
        left1[i] := count1 - count2;
        left2[i] := 0;
      } else if count2 > count1 {
        score := score + count1;
        left1[i] := 0;
        left2[i] := count2 - count1;
      } else {
        score := score + count1;
      }
    }
    assert c1[..n] == c1;
  }

  /** The second loop of compareArrays: matches with neighbouring bands. */
  method NeighbourPass(left1: array<int>, left2: array<int>, wrap: bool) returns (gain: int)
    requires left1.Length == left2.Length && left1 != left2
    modifies left2
    ensures gain == NeighbourFrom(left1[..], old(left2[..]), 0, wrap).0
  {
    var n := left1.Length;
    gain := 0;
    ghost var goal := NeighbourFrom(left1[..], left2[..], 0, wrap).0;
    for i := 0 to n
      invariant goal == gain + NeighbourFrom(left1[..], left2[..], i, wrap).0
    {
      var remaining := left1[i];
      if remaining == 0 {
        continue;
      }
      var before := TakeNeighbour(left2, LeftOf(i, n, wrap), remaining);
      gain := gain + before;
      remaining := remaining - before;
      if remaining > 0 {
        var after := TakeNeighbour(left2, RightOf(i, n, wrap), remaining);
        gain := gain + after;
      }
    }
  }

  /** compareArrays: the exact pass, then the neighbour pass, then the scaling. */
  method CompareArrays(counts1: array<int>, counts2: array<int>, wrap: bool) returns (r: real)
    requires counts1.Length <= counts2.Length
    ensures r == CompareSpec(counts1[..], counts2[..], wrap)
  {
    var score, total1, total2, left1, left2 := ExactPass(counts1, counts2);
    if total1 == 0 && total2 == 0 {
      return 1.0;
    }
    score := score * 2;
    var gain := NeighbourPass(left1, left2, wrap);
    score := score + gain;
    var maxScore := Min(total1, total2) * 2;
    if maxScore == 0 {
      return 0.0;
    }
    r := score as real / maxScore as real;
  }

  // ---------------------------------------------------------------------------
  // The comparer

  /** Two fresh histograms filled by fillCounts. */
  method NewHistograms(strokes: seq<Stroke>) returns (countsX: array<int>, countsY: array<int>)
    ensures fresh(countsX) && fresh(countsY) && countsX != countsY
    ensures countsX[..] == Tally(Empty, strokes, true)
    ensures countsY[..] == Tally(Empty, strokes, false)
  {
    countsX := new int[NumRanges](_ => 0);
    countsY := new int[NumRanges](_ => 0);
    assert countsX[..] == Empty && countsY[..] == Empty;
    FillCounts(countsX, countsY, strokes);
  }

  /** The comparer object: the two histograms of the drawn character. */
  class DotsComparer {
    const countsX: array<int>
    const countsY: array<int>

    /** newComparer followed by init, on the strokes of a finished record. */
    constructor (strokes: seq<Stroke>)
      ensures countsX.Length == NumRanges && countsY.Length == NumRanges && countsX != countsY
      ensures countsX[..] == Tally(Empty, strokes, true)
      ensures countsY[..] == Tally(Empty, strokes, false)
      ensures fresh(countsX) && fresh(countsY)
    {
      var x, y := NewHistograms(strokes);
      countsX, countsY := x, y;
    }

    /**
     * getMatchScore: the mean of the two axis comparisons, as a
     * percentage; an unfinished candidate throws IllegalState.
     */
    method GetMatchScore(other: Option<seq<Stroke>>) returns (r: Result<real>)
      requires countsX.Length == NumRanges && countsY.Length == NumRanges
      ensures other.None? ==> r == Failure(IllegalState)
      ensures other.Some? ==> r == Success(DotsScore(countsX[..], countsY[..], other.value))
    {
      if other.None? {
        return Failure(IllegalState);
      }
      var otherX, otherY := NewHistograms(other.value);
      var score := 0.0;
      var sx := CompareArrays(countsX, otherX, false);
      score := score + sx;
      var sy := CompareArrays(countsY, otherY, false);
      score := score + sy;
      score := score * 100.0 / 2.0;
      r := Success(score);
    }
  }

  /** The score of the drawn histograms against a candidate's strokes. */
  function DotsScore(drawnX: seq<int>, drawnY: seq<int>, other: seq<Stroke>): real
    requires |drawnX| == NumRanges && |drawnY| == NumRanges
  {
    (CompareSpec(drawnX, Tally(Empty, other, true), false)
     + CompareSpec(drawnY, Tally(Empty, other, false), false)) * 100.0 / 2.0
  }

  // ---------------------------------------------------------------------------
  // Properties

  /** Each band keeps its exact matches and its leftover: min + leftover is the count. */
  lemma {:induction false} ExactPlusLeft(c1: seq<int>, c2: seq<int>, k: nat)
    requires k <= |c1| <= |c2|
    ensures ExactSum(c1, c2, k) + Sum(Left1(c1, c2)[..k]) == Sum(c1[..k])
    ensures ExactSum(c1, c2, k) + Sum(Left2(c1, c2)[..k]) == Sum(c2[..k])
  {
    if k > 0 {
      ExactPlusLeft(c1, c2, k - 1);
      assert Left1(c1, c2)[..k] == Left1(c1, c2)[..k - 1] + [Left1(c1, c2)[k - 1]];
      assert Left2(c1, c2)[..k] == Left2(c1, c2)[..k - 1] + [Left2(c1, c2)[k - 1]];
      assert c1[..k] == c1[..k - 1] + [c1[k - 1]];
      assert c2[..k] == c2[..k - 1] + [c2[k - 1]];
      SumAppend(Left1(c1, c2)[..k - 1], Left1(c1, c2)[k - 1]);
      SumAppend(Left2(c1, c2)[..k - 1], Left2(c1, c2)[k - 1]);
      SumAppend(c1[..k - 1], c1[k - 1]);
      SumAppend(c2[..k - 1], c2[k - 1]);
    }
  }

  /** Exact matches are non-negative for non-negative counts. */
  lemma {:induction false} ExactSumNonNegative(c1: seq<int>, c2: seq<int>, k: nat)
    requires k <= |c1| <= |c2|
    requires forall i :: 0 <= i < |c1| ==> c1[i] >= 0 && c2[i] >= 0
    ensures ExactSum(c1, c2, k) >= 0
  {
    if k > 0 {
      ExactSumNonNegative(c1, c2, k - 1);
    }
  }

  /** One side of the neighbour pass moves units out of left2 and no more than asked. */
  lemma TakeFromBounds(left2: seq<int>, j: int, remaining: int)
    requires j < |left2| && remaining > 0
    requires forall k :: 0 <= k < |left2| ==> left2[k] >= 0
    ensures var r := TakeFrom(left2, j, remaining);
      && 0 <= r.0 <= remaining
      && r.0 + Sum(r.1) == Sum(left2)
      && forall k :: 0 <= k < |r.1| ==> r.1[k] >= 0
  {
    if j >= 0 {
      SumUpdate(left2, j, left2[j] - Taken(left2, j, remaining));
    }
  }

  /** Band i of the neighbour pass gains at most what band i of left1 has left. */
  lemma StepBounds(left1: seq<int>, left2: seq<int>, i: nat, wrap: bool)
    requires |left1| == |left2| && i < |left1|
    requires forall k :: 0 <= k < |left1| ==> left1[k] >= 0 && left2[k] >= 0
    ensures var r := NeighbourStep(left1, left2, i, wrap);
      && 0 <= r.0 <= left1[i]
      && r.0 + Sum(r.1) == Sum(left2)
      && forall k :: 0 <= k < |r.1| ==> r.1[k] >= 0
  {
    var n := |left1|;
    var remaining := left1[i];
    if remaining != 0 {
      TakeFromBounds(left2, LeftOf(i, n, wrap), remaining);
      var before := TakeFrom(left2, LeftOf(i, n, wrap), remaining);
      if remaining - before.0 > 0 {
        TakeFromBounds(before.1, RightOf(i, n, wrap), remaining - before.0);
      }
    }
  }

  /**
   * The neighbour pass takes each unit of left2 at most once and never more
   * than band i of left1 has left: what it gains is at most the sum of
   * either leftover, and no entry of left2 goes negative.
   */
  lemma {:induction false} NeighbourBounds(left1: seq<int>, left2: seq<int>, i: nat, wrap: bool)
    requires |left1| == |left2| && i <= |left1|
    requires forall k :: 0 <= k < |left1| ==> left1[k] >= 0 && left2[k] >= 0
    ensures var r := NeighbourFrom(left1, left2, i, wrap);
      && 0 <= r.0
      && r.0 + Sum(r.1) == Sum(left2)
      && r.0 <= Sum(left1[i..])
      && forall k :: 0 <= k < |r.1| ==> r.1[k] >= 0
    decreases |left1| - i
  {
    if i < |left1| {
      var step := NeighbourStep(left1, left2, i, wrap);
      StepBounds(left1, left2, i, wrap);
      NeighbourBounds(left1, step.1, i + 1, wrap);
      SumFront(left1[i..]);
      assert left1[i..][1..] == left1[i + 1..];
    }
  }

  /** The sum seen from the front. */
  lemma {:induction false} SumFront(s: seq<int>)
    requires s != []
    ensures Sum(s) == s[0] + Sum(s[1..])
  {
    if |s| > 1 {
      SumFront(s[..|s| - 1]);
      assert s[..|s| - 1][1..] == s[1..][..|s| - 2];
    }
  }

  /** A neighbour pass with nothing left on the first side gains nothing. */
  lemma {:induction false} NeighbourNothingLeft(left1: seq<int>, left2: seq<int>, i: nat, wrap: bool)
    requires |left1| == |left2| && i <= |left1|
    requires forall k :: i <= k < |left1| ==> left1[k] == 0
    ensures NeighbourFrom(left1, left2, i, wrap).0 == 0
    decreases |left1| - i
  {
    if i < |left1| {
      NeighbourNothingLeft(left1, left2, i + 1, wrap);
    }
  }

  /** The points never exceed two per unit of the smaller histogram. */
  lemma MatchScoreBounds(c1: seq<int>, c2: seq<int>, wrap: bool)
    requires |c1| == |c2|
    requires forall i :: 0 <= i < |c1| ==> c1[i] >= 0 && c2[i] >= 0
    ensures 0 <= MatchScore(c1, c2, wrap) <= 2 * Min(Sum(c1), Sum(c2))
  {
    var n := |c1|;
    assert c1[..n] == c1 && c2[..n] == c2;
    var l1, l2 := Left1(c1, c2), Left2(c1, c2);
    assert l1[..n] == l1 && l2[..n] == l2 && l1[0..] == l1;
    ExactPlusLeft(c1, c2, n);
    ExactSumNonNegative(c1, c2, n);
    NeighbourBounds(l1, l2, 0, wrap);
    SumNonNegative(l1);
    SumNonNegative(NeighbourFrom(l1, l2, 0, wrap).1);
  }

  /** A part of a positive whole, as a proportion. */
  lemma Ratio(part: int, whole: int)
    requires 0 <= part <= whole && whole > 0
    ensures 0.0 <= part as real / whole as real <= 1.0
  {
  }

  /** compareArrays on non-negative counts is a proportion. */
  lemma CompareInRange(c1: seq<int>, c2: seq<int>, wrap: bool)
    requires |c1| == |c2|
    requires forall i :: 0 <= i < |c1| ==> c1[i] >= 0 && c2[i] >= 0
    ensures 0.0 <= CompareSpec(c1, c2, wrap) <= 1.0
  {
    assert c2[..|c1|] == c2;
    MatchScoreBounds(c1, c2, wrap);
    var maxScore := Min(Sum(c1), Sum(c2)) * 2;
    if maxScore > 0 {
      Ratio(MatchScore(c1, c2, wrap), maxScore);
    }
  }

  /** Two histograms with no points match perfectly. */
  lemma CompareBothEmpty(c1: seq<int>, c2: seq<int>, wrap: bool)
    requires |c1| == |c2|
    requires forall i :: 0 <= i < |c1| ==> c1[i] == 0 && c2[i] == 0
    ensures CompareSpec(c1, c2, wrap) == 1.0
  {
    var n := |c1|;
    assert c2[..n] == c2;
    SumZero(c1);
    SumZero(c2);
  }

  /** A histogram with points against one without scores nothing. */
  lemma CompareOneEmpty(c1: seq<int>, c2: seq<int>, wrap: bool)
    requires |c1| == |c2|
    requires forall i :: 0 <= i < |c1| ==> c1[i] >= 0 && c2[i] >= 0
    requires (Sum(c1) == 0) != (Sum(c2) == 0)
    ensures CompareSpec(c1, c2, wrap) == 0.0
  {
    assert c2[..|c1|] == c2;
    SumNonNegative(c1);
    SumNonNegative(c2);
  }

  /** Matching a histogram against itself matches every unit exactly. */
  lemma {:induction false} ExactSumSelf(c: seq<int>, k: nat)
    requires k <= |c|
    ensures ExactSum(c, c, k) == Sum(c[..k])
  {
    if k > 0 {
      ExactSumSelf(c, k - 1);
      assert c[..k] == c[..k - 1] + [c[k - 1]];
      SumAppend(c[..k - 1], c[k - 1]);
    }
  }

  /** Against itself a histogram scores two points per unit. */
  lemma MatchScoreSelf(c: seq<int>, wrap: bool)
    ensures MatchScore(c, c, wrap) == 2 * Sum(c)
  {
    assert c[..|c|] == c;
    ExactSumSelf(c, |c|);
    NeighbourNothingLeft(Left1(c, c), Left2(c, c), 0, wrap);
  }

  /** Identical histograms with at least one point match perfectly. */
  lemma CompareIdentical(c: seq<int>, wrap: bool)
    requires Sum(c) > 0
    ensures CompareSpec(c, c, wrap) == 1.0
  {
    assert c[..|c|] == c;
    MatchScoreSelf(c, wrap);
    var m := (2 * Sum(c)) as real;
    assert m / m == 1.0;
  }

  /** The dots score is a percentage. */
  lemma DotsScoreInRange(drawnX: seq<int>, drawnY: seq<int>, other: seq<Stroke>)
    requires |drawnX| == NumRanges && |drawnY| == NumRanges
    requires forall i :: 0 <= i < NumRanges ==> drawnX[i] >= 0 && drawnY[i] >= 0
    ensures 0.0 <= DotsScore(drawnX, drawnY, other) <= 100.0
  {
    TallyGrows(Empty, other, true);
    TallyGrows(Empty, other, false);
    CompareInRange(drawnX, Tally(Empty, other, true), false);
    CompareInRange(drawnY, Tally(Empty, other, false), false);
  }

  /** The histograms of a fresh comparer count two points per stroke on each axis. */
  lemma HistogramTotal(strokes: seq<Stroke>, xAxis: bool)
    ensures Sum(Tally(Empty, strokes, xAxis)) == 2 * |strokes|
  {
    assert Sum(Empty) == 0 by {
      SumZero(Empty);
    }
    TallySum(Empty, strokes, xAxis);
  }

  /** The sum of a five-band histogram, written out. */
  lemma Sum5(s: seq<int>)
    requires |s| == 5
    ensures Sum(s) == s[0] + s[1] + s[2] + s[3] + s[4]
  {
    assert Sum(s[..1]) == s[0] by { assert s[..1][..0] == []; }
    assert Sum(s[..2]) == s[0] + s[1] by { assert s[..2][..1] == s[..1]; }
    assert Sum(s[..3]) == s[0] + s[1] + s[2] by { assert s[..3][..2] == s[..2]; }
    assert Sum(s[..4]) == s[0] + s[1] + s[2] + s[3] by { assert s[..4][..3] == s[..3]; }
  }

  /** compareArrays on two five-band histograms, with the totals written out. */
  lemma Compare5(c1: seq<int>, c2: seq<int>, wrap: bool)
    requires |c1| == 5 && |c2| == 5
    ensures var t1, t2 := c1[0] + c1[1] + c1[2] + c1[3] + c1[4], c2[0] + c2[1] + c2[2] + c2[3] + c2[4];
      CompareSpec(c1, c2, wrap)
      == if t1 == 0 && t2 == 0 then 1.0
         else if Min(t1, t2) == 0 then 0.0
         else MatchScore(c1, c2, wrap) as real / (2 * Min(t1, t2)) as real
  {
    Sum5(c1);
    Sum5(c2);
    assert c2[..5] == c2;
  }

  /** Equal histograms, and histograms with no points. */
  lemma EqualAndEmpty()
    ensures CompareSpec([1, 0, 7, 4, 0], [1, 0, 7, 4, 0], false) == 1.0
    ensures CompareSpec(Empty, Empty, false) == 1.0
    ensures CompareSpec(Empty, [0, 0, 0, 0, 1], false) == 0.0
    ensures CompareSpec([0, 0, 0, 0, 1], Empty, false) == 0.0
  {
    Sum5([1, 0, 7, 4, 0]);
    CompareIdentical([1, 0, 7, 4, 0], false);
    CompareBothEmpty(Empty, Empty, false);
    Sum5(Empty);
    Sum5([0, 0, 0, 0, 1]);
    CompareOneEmpty(Empty, [0, 0, 0, 0, 1], false);
    CompareOneEmpty([0, 0, 0, 0, 1], Empty, false);
  }
}

/**
 * The comparisons of DotsComparerTest.testCompareArrays, all without wrap.
 * Each vector is a lemma whose two arrays are parameters fixed by its
 * requires, stating CompareSpec of them, and the point count (MatchScore) of
 * each vector is a lemma of its own. Written with the arrays as literals in
 * the ensures, the verifier unfolds the recursive band functions on those
 * literals without bound, and the same proof exhausts the solver.
 */
module DotsTests {
  import opened Dots

  /** The points of ShiftFirst. */
  lemma ShiftFirstPoints(a: seq<int>, b: seq<int>)
    requires a == [1, 0, 0, 0, 0] && b == [0, 1, 0, 0, 0]
    ensures MatchScore(a, b, false) == 1
  {
    assert Left1([1, 0, 0, 0, 0], [0, 1, 0, 0, 0]) == [1, 0, 0, 0, 0];
    assert Left2([1, 0, 0, 0, 0], [0, 1, 0, 0, 0]) == [0, 1, 0, 0, 0];
    assert MatchScore([1, 0, 0, 0, 0], [0, 1, 0, 0, 0], false) == 1;
  }

  /** A point shifted from the first band to the second scores half. */
  lemma ShiftFirst(a: seq<int>, b: seq<int>)
    requires a == [1, 0, 0, 0, 0] && b == [0, 1, 0, 0, 0]
    ensures CompareSpec(a, b, false) == 0.5
  {
    ShiftFirstPoints(a, b);
    Compare5(a, b, false);
  }

  /** The points of ShiftSecond. */
  lemma ShiftSecondPoints(a: seq<int>, b: seq<int>)
    requires a == [0, 1, 0, 0, 0] && b == [1, 0, 0, 0, 0]
    ensures MatchScore(a, b, false) == 1
  {
    assert Left1([0, 1, 0, 0, 0], [1, 0, 0, 0, 0]) == [0, 1, 0, 0, 0];
    assert Left2([0, 1, 0, 0, 0], [1, 0, 0, 0, 0]) == [1, 0, 0, 0, 0];
    assert MatchScore([0, 1, 0, 0, 0], [1, 0, 0, 0, 0], false) == 1;
  }

  /** A point shifted from the second band to the first scores half. */
  lemma ShiftSecond(a: seq<int>, b: seq<int>)
    requires a == [0, 1, 0, 0, 0] && b == [1, 0, 0, 0, 0]
    ensures CompareSpec(a, b, false) == 0.5
  {
    ShiftSecondPoints(a, b);
    Compare5(a, b, false);
  }

  /** The points of ShiftLast. */
  lemma ShiftLastPoints(a: seq<int>, b: seq<int>)
    requires a == [0, 0, 0, 0, 1] && b == [0, 0, 0, 1, 0]
    ensures MatchScore(a, b, false) == 1
  {
    assert Left1([0, 0, 0, 0, 1], [0, 0, 0, 1, 0]) == [0, 0, 0, 0, 1];
    assert Left2([0, 0, 0, 0, 1], [0, 0, 0, 1, 0]) == [0, 0, 0, 1, 0];
    assert MatchScore([0, 0, 0, 0, 1], [0, 0, 0, 1, 0], false) == 1;
  }

  /** A point shifted from the last band to the fourth scores half. */
  lemma ShiftLast(a: seq<int>, b: seq<int>)
    requires a == [0, 0, 0, 0, 1] && b == [0, 0, 0, 1, 0]
    ensures CompareSpec(a, b, false) == 0.5
  {
    ShiftLastPoints(a, b);
    Compare5(a, b, false);
  }

  /** The points of ShiftFourth. */
  lemma ShiftFourthPoints(a: seq<int>, b: seq<int>)
    requires a == [0, 0, 0, 1, 0] && b == [0, 0, 0, 0, 1]
    ensures MatchScore(a, b, false) == 1
  {
    assert Left1([0, 0, 0, 1, 0], [0, 0, 0, 0, 1]) == [0, 0, 0, 1, 0];
    assert Left2([0, 0, 0, 1, 0], [0, 0, 0, 0, 1]) == [0, 0, 0, 0, 1];
    assert MatchScore([0, 0, 0, 1, 0], [0, 0, 0, 0, 1], false) == 1;
  }

  /** A point shifted from the fourth band to the last scores half. */
  lemma ShiftFourth(a: seq<int>, b: seq<int>)
    requires a == [0, 0, 0, 1, 0] && b == [0, 0, 0, 0, 1]
    ensures CompareSpec(a, b, false) == 0.5
  {
    ShiftFourthPoints(a, b);
    Compare5(a, b, false);
  }

  /** The points of ShiftLeftOver. */
  lemma ShiftLeftOverPoints(a: seq<int>, b: seq<int>)
    requires a == [2, 0, 0, 0, 0] && b == [0, 1, 1, 0, 0]
    ensures MatchScore(a, b, false) == 1
  {
    assert Left1([2, 0, 0, 0, 0], [0, 1, 1, 0, 0]) == [2, 0, 0, 0, 0];
    assert Left2([2, 0, 0, 0, 0], [0, 1, 1, 0, 0]) == [0, 1, 1, 0, 0];
    assert MatchScore([2, 0, 0, 0, 0], [0, 1, 1, 0, 0], false) == 1;
  }

  /** Only one of two points finds a neighbour; the other is left over. */
  lemma ShiftLeftOver(a: seq<int>, b: seq<int>)
    requires a == [2, 0, 0, 0, 0] && b == [0, 1, 1, 0, 0]
    ensures CompareSpec(a, b, false) == 0.25
  {
    ShiftLeftOverPoints(a, b);
    Compare5(a, b, false);
  }

  /** The points of ShiftUsedOnce. */
  lemma ShiftUsedOncePoints(a: seq<int>, b: seq<int>)
    requires a == [0, 1, 0, 1, 0] && b == [0, 0, 1, 0, 0]
    ensures MatchScore(a, b, false) == 1
  {
    assert Left1([0, 1, 0, 1, 0], [0, 0, 1, 0, 0]) == [0, 1, 0, 1, 0];
    assert Left2([0, 1, 0, 1, 0], [0, 0, 1, 0, 0]) == [0, 0, 1, 0, 0];
    assert MatchScore([0, 1, 0, 1, 0], [0, 0, 1, 0, 0], false) == 1;
  }

  /** A neighbouring point is matched at most once. */
  lemma ShiftUsedOnce(a: seq<int>, b: seq<int>)
    requires a == [0, 1, 0, 1, 0] && b == [0, 0, 1, 0, 0]
    ensures CompareSpec(a, b, false) == 0.5
  {
    ShiftUsedOncePoints(a, b);
    Compare5(a, b, false);
  }

  /** The points of EqualAndShift. */
  lemma EqualAndShiftPoints(a: seq<int>, b: seq<int>)
    requires a == [1, 0, 1, 0, 0] && b == [0, 1, 1, 0, 0]
    ensures MatchScore(a, b, false) == 3
  {
    assert Left1([1, 0, 1, 0, 0], [0, 1, 1, 0, 0]) == [1, 0, 0, 0, 0];
    assert Left2([1, 0, 1, 0, 0], [0, 1, 1, 0, 0]) == [0, 1, 0, 0, 0];
    assert MatchScore([1, 0, 1, 0, 0], [0, 1, 1, 0, 0], false) == 3;
  }

  /** One exact match and one neighbour match. */
  lemma EqualAndShift(a: seq<int>, b: seq<int>)
    requires a == [1, 0, 1, 0, 0] && b == [0, 1, 1, 0, 0]
    ensures CompareSpec(a, b, false) == 0.75
  {
    EqualAndShiftPoints(a, b);
    Compare5(a, b, false);
  }

  /** The points of ExtraFirst. */
  lemma ExtraFirstPoints(a: seq<int>, b: seq<int>)
    requires a == [1, 0, 1, 0, 0] && b == [0, 0, 1, 0, 0]
    ensures MatchScore(a, b, false) == 2
  {
    assert Left1([1, 0, 1, 0, 0], [0, 0, 1, 0, 0]) == [1, 0, 0, 0, 0];
    assert Left2([1, 0, 1, 0, 0], [0, 0, 1, 0, 0]) == [0, 0, 0, 0, 0];
    assert MatchScore([1, 0, 1, 0, 0], [0, 0, 1, 0, 0], false) == 2;
  }

  /** An extra unmatched point on the first side costs nothing. */
  lemma ExtraFirst(a: seq<int>, b: seq<int>)
    requires a == [1, 0, 1, 0, 0] && b == [0, 0, 1, 0, 0]
    ensures CompareSpec(a, b, false) == 1.0
  {
    ExtraFirstPoints(a, b);
    Compare5(a, b, false);
  }

  /** The points of ExtraSecond. */
  lemma ExtraSecondPoints(a: seq<int>, b: seq<int>)
    requires a == [0, 0, 1, 0, 0] && b == [1, 0, 1, 0, 0]
    ensures MatchScore(a, b, false) == 2
  {
    assert Left1([0, 0, 1, 0, 0], [1, 0, 1, 0, 0]) == [0, 0, 0, 0, 0];
    assert Left2([0, 0, 1, 0, 0], [1, 0, 1, 0, 0]) == [1, 0, 0, 0, 0];
    assert MatchScore([0, 0, 1, 0, 0], [1, 0, 1, 0, 0], false) == 2;
  }

  /** An extra unmatched point on the second side costs nothing. */
  lemma ExtraSecond(a: seq<int>, b: seq<int>)
    requires a == [0, 0, 1, 0, 0] && b == [1, 0, 1, 0, 0]
    ensures CompareSpec(a, b, false) == 1.0
  {
    ExtraSecondPoints(a, b);
    Compare5(a, b, false);
  }
}
