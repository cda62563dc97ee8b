// Model of KanjiMatch.java: one search result, a record with its score,
// ordered best score first and then by the record's character.

module Matches {
  import opened Wrappers
  import opened StrokeGeometry
  import KanjiRecord

  /** Java's float > : false whenever either side is NaN. */
  predicate FloatGreater(a: FloatValue, b: FloatValue) {
    a.Finite? && b.Finite? && a.value > b.value
  }

  /**
   * String.compareTo: the difference of the first two characters that
   * differ, or else of the lengths.
   */
  function CompareStrings(a: string, b: string): int
    decreases |a|
  {
    if |a| == 0 || |b| == 0 then |a| - |b|
    else if a[0] != b[0] then a[0] as int - b[0] as int
    else CompareStrings(a[1..], b[1..])
  }

  lemma {:induction false} CompareStringsZero(a: string, b: string)
    ensures CompareStrings(a, b) == 0 <==> a == b
    decreases |a|
  {
    if |a| != 0 && |b| != 0 && a[0] == b[0] {
      CompareStringsZero(a[1..], b[1..]);
      assert a == [a[0]] + a[1..] && b == [b[0]] + b[1..];
    }
  }

  lemma {:induction false} CompareStringsAntisymmetric(a: string, b: string)
    ensures CompareStrings(a, b) == -CompareStrings(b, a)
    decreases |a|
  {
    if |a| != 0 && |b| != 0 && a[0] == b[0] {
      CompareStringsAntisymmetric(a[1..], b[1..]);
    }
  }

  lemma {:induction false} CompareStringsTransitive(a: string, b: string, c: string)
    requires CompareStrings(a, b) < 0 && CompareStrings(b, c) < 0
    ensures CompareStrings(a, c) < 0
    decreases |a|
  {
    if |a| != 0 && |b| != 0 && |c| != 0 && a[0] == b[0] && b[0] == c[0] {
      CompareStringsTransitive(a[1..], b[1..], c[1..]);
    }
  }

  /** KanjiMatch: a record and its match score (higher is better). */
  datatype KanjiMatch = KanjiMatch(kanji: KanjiRecord.KanjiInfo, score: FloatValue) {
    /** compareTo: the higher score first; equal (or NaN) scores by the character. */
    function CompareTo(o: KanjiMatch): (r: int)
      ensures FloatGreater(score, o.score) ==> r < 0
      ensures FloatGreater(o.score, score) ==> r > 0
    {
      if FloatGreater(score, o.score) then -1
      else if FloatGreater(o.score, score) then 1
      else CompareStrings(kanji.kanji, o.kanji.kanji)
    }
  }

  /** a sorts strictly before b. */
  predicate Before(a: KanjiMatch, b: KanjiMatch) {
    a.CompareTo(b) < 0
  }

  /** compareTo is 0 exactly when neither score is greater and the characters are the same. */
  lemma CompareToZero(a: KanjiMatch, b: KanjiMatch)
    ensures a.CompareTo(b) == 0 <==>
      !FloatGreater(a.score, b.score) && !FloatGreater(b.score, a.score) && a.kanji.kanji == b.kanji.kanji
  {
    CompareStringsZero(a.kanji.kanji, b.kanji.kanji);
  }

  /** On finite scores, compareTo is 0 exactly when the scores and the characters are equal. */
  lemma CompareToZeroFinite(a: KanjiMatch, b: KanjiMatch)
    requires a.score.Finite? && b.score.Finite?
    ensures a.CompareTo(b) == 0 <==> a.score == b.score && a.kanji.kanji == b.kanji.kanji
  {
    CompareToZero(a, b);
  }

  /** Swapping the arguments flips the sign, NaN scores included. */
  lemma CompareToAntisymmetric(a: KanjiMatch, b: KanjiMatch)
    ensures Sign(a.CompareTo(b)) == -Sign(b.CompareTo(a))
  {
    CompareStringsAntisymmetric(a.kanji.kanji, b.kanji.kanji);
  }

  /** On finite scores Before is transitive, so compareTo is a total order on (score, character). */
  lemma BeforeTransitive(a: KanjiMatch, b: KanjiMatch, c: KanjiMatch)
    requires a.score.Finite? && b.score.Finite? && c.score.Finite?
    requires Before(a, b) && Before(b, c)
    ensures Before(a, c)
  {
    if !FloatGreater(a.score, b.score) && !FloatGreater(b.score, c.score) {
      CompareStringsTransitive(a.kanji.kanji, b.kanji.kanji, c.kanji.kanji);
    }
  }

  /** On finite scores, of two different-keyed matches one sorts before the other. */
  lemma BeforeTotal(a: KanjiMatch, b: KanjiMatch)
    requires a.score.Finite? && b.score.Finite?
    requires a.score != b.score || a.kanji.kanji != b.kanji.kanji
    ensures Before(a, b) || Before(b, a)
  {
    CompareToZeroFinite(a, b);
    CompareToAntisymmetric(a, b);
  }
}
