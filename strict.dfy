/**
 * The strict comparer: stroke i of the drawn character is compared with
 * stroke i of the candidate on direction, start and end location and the
 * move from the previous stroke, each with its own weight.
 */
module Strict {
  import opened Wrappers
  import opened StrokeGeometry

  const StrokeDirectionWeight: real := 1.0
  const MoveDirectionWeight: real := 0.8
  const StrokeLocationWeight: real := 0.6
  const CloseWeight: real := 0.7

  /** Full weight for an equal pair, weight × CloseWeight for a close one, nothing otherwise. */
  function Credit(equal: bool, close: bool, weight: real): real {
    if equal then weight else if close then weight * CloseWeight else 0.0
  }

  function DirectionCredit(a: Direction, b: Direction, weight: real): real {
    Credit(a == b, a.IsClose(b), weight)
  }

  function LocationCredit(a: Location, b: Location): real {
    Credit(a == b, a.IsClose(b), StrokeLocationWeight)
  }

  /** Two feature sets that can be compared position by position. */
  predicate Comparable(d: Features, o: Features) {
    d.WellFormed() && o.WellFormed() && o.Count() == d.Count()
  }

  /** What stroke i adds to the score: its direction, its move (from the second stroke on) and its locations. */
  function StrokeCredit(d: Features, o: Features, i: nat): real
    requires Comparable(d, o) && i < d.Count()
  {
    DirectionCredit(d.directions[i], o.directions[i], StrokeDirectionWeight)
    + (if i > 0 then DirectionCredit(d.moves[i - 1], o.moves[i - 1], MoveDirectionWeight) else 0.0)
    + LocationCredit(d.starts[i], o.starts[i])
    + LocationCredit(d.ends[i], o.ends[i])
  }

  /** The credit of every stroke, in order. */
  function Credits(d: Features, o: Features): (c: seq<real>)
    requires Comparable(d, o)
    ensures |c| == d.Count() && forall i :: 0 <= i < |c| ==> c[i] == StrokeCredit(d, o, i)
  {
    seq(d.Count(), i requires 0 <= i < d.Count() => StrokeCredit(d, o, i))
  }

  /** The first k values added up from the left. */
  function Sum(s: seq<real>, k: nat): real
    requires k <= |s|
  {
    if k == 0 then 0.0 else Sum(s, k - 1) + s[k - 1]
  }

  /** The score accumulated over the first k strokes. */
  function ScoreSum(d: Features, o: Features, k: nat): real
    requires Comparable(d, o) && k <= d.Count()
  {
    Sum(Credits(d, o), k)
  }

  /** The score of a perfect match of n strokes (negative for n = 0, as StrictComparer computes it). */
  function MaxScore(n: nat): real {
    n as real * (StrokeDirectionWeight + 2.0 * StrokeLocationWeight) + (n as real - 1.0) * MoveDirectionWeight
  }

  /** A part of a whole as a percentage. */
  function Percent(part: real, whole: real): real
    requires whole != 0.0
  {
    100.0 * part / whole
  }

  /**
   * getMatchScore: a missing array on either side is a NullPointerException,
   * different stroke counts an IllegalArgumentException; otherwise the
   * score as a percentage of the perfect score.
   */
  function StrictScore(drawn: Option<Features>, other: Option<Features>): (r: Result<real>)
    requires drawn.Some? ==> drawn.value.WellFormed()
    requires other.Some? ==> other.value.WellFormed()
    ensures r.Failure? <==> drawn.None? || other.None? || other.value.Count() != drawn.value.Count()
    ensures r.Failure? && drawn.Some? && other.Some? ==> r.error == IllegalArgument
    ensures r.Failure? && (drawn.None? || other.None?) ==> r.error == NullPointer
  {
    if drawn.None? || other.None? then Failure(NullPointer)
    else if other.value.Count() != drawn.value.Count() then Failure(IllegalArgument)
    else
      var n := drawn.value.Count();
      Success(Percent(ScoreSum(drawn.value, other.value, n), MaxScore(n)))
  }

  /** The comparer object: init copies the drawn record's four arrays (which may be missing). */
  class StrictComparer {
    const drawn: Option<Features>

    /** newComparer followed by init. */
    constructor (info: Option<Features>)
      ensures drawn == info
    {
      drawn := info;
    }

    /** getMatchScore: the loop over the strokes of both records. */
    method GetMatchScore(other: Option<Features>) returns (r: Result<real>)
      requires drawn.Some? ==> drawn.value.WellFormed()
      requires other.Some? ==> other.value.WellFormed()
      ensures r == StrictScore(drawn, other)
    {
      if other.None? || drawn.None? {
        return Failure(NullPointer);
      }
      var d, o := drawn.value, other.value;
      if |o.starts| != |d.starts| {
        return Failure(IllegalArgument);
      }
      var score := PercentScore(d, o);
      r := Success(score);
    }
  }

  /** The scoring loop of getMatchScore over two records with the same stroke count. */
  method PercentScore(d: Features, o: Features) returns (r: real)
    requires Comparable(d, o)
    ensures r == Percent(ScoreSum(d, o, d.Count()), MaxScore(d.Count()))
  {
    var score := 0.0;
    for i := 0 to |d.starts|
      invariant score == ScoreSum(d, o, i)
    {
      var credit := StrokeStep(d, o, i);
      score := score + credit;
    }
    var max := |d.starts| as real * (StrokeDirectionWeight + 2.0 * StrokeLocationWeight)
               + (|d.starts| as real - 1.0) * MoveDirectionWeight;
    assert max == MaxScore(d.Count());
    r := Percent(score, max);
  }

  // ---------------------------------------------------------------------------
  // Properties

  /** Every credit lies between nothing and the full weight. */
  lemma CreditBounds(equal: bool, close: bool, weight: real)
    requires weight >= 0.0
    ensures 0.0 <= Credit(equal, close, weight) <= weight
    ensures equal ==> Credit(equal, close, weight) == weight
  {
  }

  /** Stroke i's credit when everything matches: 2.2, plus 0.8 for its move from the second stroke on. */
  function FullCredit(i: nat): real {
    StrokeDirectionWeight + 2.0 * StrokeLocationWeight + (if i > 0 then MoveDirectionWeight else 0.0)
  }

  /** A stroke earns between nothing and its full credit, and the full credit on a self-match. */
  lemma StrokeCreditBounds(d: Features, o: Features, i: nat)
    requires Comparable(d, o) && i < d.Count()
    ensures 0.0 <= StrokeCredit(d, o, i) <= FullCredit(i)
    ensures d == o ==> StrokeCredit(d, o, i) == FullCredit(i)
  {
    CreditBounds(d.directions[i] == o.directions[i], d.directions[i].IsClose(o.directions[i]), StrokeDirectionWeight);
    if i > 0 {
      CreditBounds(d.moves[i - 1] == o.moves[i - 1], d.moves[i - 1].IsClose(o.moves[i - 1]), MoveDirectionWeight);
    }
    CreditBounds(d.starts[i] == o.starts[i], d.starts[i].IsClose(o.starts[i]), StrokeLocationWeight);
    CreditBounds(d.ends[i] == o.ends[i], d.ends[i].IsClose(o.ends[i]), StrokeLocationWeight);
  }

  /** Adding up values each within its full credit stays within the perfect score. */
  lemma {:induction false} SumBounds(s: seq<real>, k: nat)
    requires 1 <= k <= |s|
    requires forall i :: 0 <= i < k ==> 0.0 <= s[i] <= FullCredit(i)
    ensures 0.0 <= Sum(s, k) <= MaxScore(k)
  {
    if k > 1 {
      SumBounds(s, k - 1);
    }
  }

  /** Adding up the full credits gives the perfect score. */
  lemma {:induction false} SumFull(s: seq<real>, k: nat)
    requires 1 <= k <= |s|
    requires forall i :: 0 <= i < k ==> s[i] == FullCredit(i)
    ensures Sum(s, k) == MaxScore(k)
  {
    if k > 1 {
      SumFull(s, k - 1);
    }
  }

  /** The running score never exceeds the perfect score of the same strokes. */
  lemma ScoreSumBounds(d: Features, o: Features, k: nat)
    requires Comparable(d, o) && 1 <= k <= d.Count()
    ensures 0.0 <= ScoreSum(d, o, k) <= MaxScore(k)
  {
    forall i | 0 <= i < k
      ensures 0.0 <= Credits(d, o)[i] <= FullCredit(i)
    {
      StrokeCreditBounds(d, o, i);
    }
    SumBounds(Credits(d, o), k);
  }

  /** A self-match reaches the perfect score. */
  lemma ScoreSumSelf(f: Features, k: nat)
    requires f.WellFormed() && 1 <= k <= f.Count()
    ensures ScoreSum(f, f, k) == MaxScore(k)
  {
    forall i | 0 <= i < k
      ensures Credits(f, f)[i] == FullCredit(i)
    {
      StrokeCreditBounds(f, f, i);
    }
    SumFull(Credits(f, f), k);
  }

  /** A part of a positive whole, as a percentage. */
  lemma Percentage(part: real, whole: real)
    requires 0.0 <= part <= whole && whole > 0.0
    ensures 0.0 <= Percent(part, whole) <= 100.0
    ensures part == whole ==> Percent(part, whole) == 100.0
  {
    var r := Percent(part, whole);
    assert r * whole == 100.0 * part;
    assert (r - 100.0) * whole == 100.0 * (part - whole);
    ProductSign(r - 100.0, whole);
    ProductSign(r, whole);
  }

  /** The sign of a product with a positive factor is the sign of the other factor. */
  lemma ProductSign(a: real, b: real)
    requires b > 0.0
    ensures a * b <= 0.0 ==> a <= 0.0
    ensures a * b >= 0.0 ==> a >= 0.0
    ensures a * b == 0.0 ==> a == 0.0
  {
  }

  /** A successful strict score is a percentage. */
  lemma StrictScoreInRange(drawn: Option<Features>, other: Option<Features>)
    requires drawn.Some? ==> drawn.value.WellFormed()
    requires other.Some? ==> other.value.WellFormed()
    requires StrictScore(drawn, other).Success?
    ensures 0.0 <= StrictScore(drawn, other).value <= 100.0
  {
    var n := drawn.value.Count();
    if n > 0 {
      ScoreSumBounds(drawn.value, other.value, n);
      Percentage(ScoreSum(drawn.value, other.value, n), MaxScore(n));
    }
  }

  /** A candidate whose four arrays equal the drawn ones scores exactly 100. */
  lemma StrictSelfMatch(f: Features)
    requires f.WellFormed() && f.Count() >= 1
    ensures StrictScore(Some(f), Some(f)) == Success(100.0)
  {
    ScoreSumSelf(f, f.Count());
    Percentage(ScoreSum(f, f, f.Count()), MaxScore(f.Count()));
  }

  /** A stroke's credit is symmetric because equality and both closeness relations are. */
  lemma StrokeCreditSymmetric(d: Features, o: Features, i: nat)
    requires Comparable(d, o) && i < d.Count()
    ensures StrokeCredit(d, o, i) == StrokeCredit(o, d, i)
  {
    DirectionIsCloseSymmetric(d.directions[i], o.directions[i]);
    if i > 0 {
      DirectionIsCloseSymmetric(d.moves[i - 1], o.moves[i - 1]);
    }
    LocationIsCloseSymmetric(d.starts[i], o.starts[i]);
    LocationIsCloseSymmetric(d.ends[i], o.ends[i]);
  }

  lemma ScoreSumSymmetric(d: Features, o: Features, k: nat)
    requires Comparable(d, o) && k <= d.Count()
    ensures ScoreSum(d, o, k) == ScoreSum(o, d, k)
  {
    forall i | 0 <= i < d.Count()
      ensures Credits(d, o)[i] == Credits(o, d)[i]
    {
      StrokeCreditSymmetric(d, o, i);
    }
    assert Credits(d, o) == Credits(o, d);
  }

  /** Swapping the drawn and the candidate record does not change the score. */
  lemma StrictScoreSymmetric(a: Option<Features>, b: Option<Features>)
    requires a.Some? ==> a.value.WellFormed()
    requires b.Some? ==> b.value.WellFormed()
    ensures StrictScore(a, b) == StrictScore(b, a)
  {
    if a.Some? && b.Some? && a.value.Count() == b.value.Count() {
      var n := a.value.Count();
      ScoreSumSymmetric(a.value, b.value, n);
      assert StrictScore(a, b) == Success(Percent(ScoreSum(a.value, b.value, n), MaxScore(n)));
      assert StrictScore(b, a) == Success(Percent(ScoreSum(b.value, a.value, n), MaxScore(n)));
    }
  }

  /** The body of getMatchScore's loop: what stroke i adds to the score. */
  method StrokeStep(d: Features, o: Features, i: nat) returns (credit: real)
    requires Comparable(d, o) && i < d.Count()
    ensures credit == StrokeCredit(d, o, i)
  {
    credit := 0.0;
    if d.directions[i] == o.directions[i] {
      credit := credit + StrokeDirectionWeight;
    } else if d.directions[i].IsClose(o.directions[i]) {
      credit := credit + StrokeDirectionWeight * CloseWeight;
    }
    if i > 0 {
      if d.moves[i - 1] == o.moves[i - 1] {
        credit := credit + MoveDirectionWeight;
      } else if d.moves[i - 1].IsClose(o.moves[i - 1]) {
        credit := credit + MoveDirectionWeight * CloseWeight;
      }
    }
    if d.starts[i] == o.starts[i] {
      credit := credit + StrokeLocationWeight;
    } else if d.starts[i].IsClose(o.starts[i]) {
      credit := credit + StrokeLocationWeight * CloseWeight;
    }
    if d.ends[i] == o.ends[i] {
      credit := credit + StrokeLocationWeight;
    } else if d.ends[i].IsClose(o.ends[i]) {
      credit := credit + StrokeLocationWeight * CloseWeight;
    }
  }
}
